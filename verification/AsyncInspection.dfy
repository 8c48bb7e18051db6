/**
 The asynchronous WFP inspection queue: any number of threads post operations to an executor, work items complete them
 later, and shutdown waits for the rundown reference. Every atomic access of the source is a step of its own, so a
 run is any interleaving of the posting threads, the work items and the unloading thread.
 */
module AsyncInspection {
  // Where the thread posting an operation is. A refused operation was destroyed, and so completed, by the executor.
  datatype Pc =
    | Idle
    | Checked
    | Acquired
    | Admitted
    | Refused
    | FailureStored
    | RefusedReleased
    | Queued
    | Counted
    | Returned(queued: bool)
    | Rejected

  // Where the work item of an operation is.
  datatype Item = NoItem | Waiting | ItemCounted | OperationCompleted | ItemReleased

  // One operation with its history: how often it took and released the rundown reference and was completed.
  datatype Op = Op(pc: Pc, item: Item, taken: nat, released: nat, completions: nat)

  datatype Unload = Running | Stopped | WaitingForRundown | ShutDown

  datatype State = State(
    ops: seq<Op>, accepting: bool, failed: bool, admissions: int, pended: int, completed: int,
    references: int, rundown: bool, unload: Unload, everRefused: bool)

  datatype Event =
    | Check(i: nat)
    | Acquire(i: nat)
    | Admit(i: nat)
    | Post(i: nat, ok: bool)
    | StoreFailed(i: nat)
    | ReleaseRefused(i: nat)
    | CountPended(i: nat)
    | Leave(i: nat)
    | ItemCount(i: nat)
    | ItemComplete(i: nat)
    | ItemRelease(i: nat)
    | StopAccepting
    | BeginWait
    | FinishWait

  const FRESH := Op(Idle, NoItem, 0, 0, 0)

  predicate Initial(s: State)
  {
    && (forall i | 0 <= i < |s.ops| :: s.ops[i] == FRESH)
    && s.accepting && !s.failed && s.admissions == 0 && s.pended == 0 && s.completed == 0
    && s.references == 0 && !s.rundown && s.unload.Running? && !s.everRefused
  }

  predicate IsUnload(e: Event) { e.StopAccepting? || e.BeginWait? || e.FinishWait? }

  // The program points at which the thread or work item of operation `o` can take event `e`.
  predicate Ready(o: Op, e: Event)
  {
    match e
    case Check(_) => o.pc.Idle?
    case Acquire(_) => o.pc.Checked?
    case Admit(_) => o.pc.Acquired?
    case Post(_, _) => o.pc.Admitted?
    case StoreFailed(_) => o.pc.Refused?
    case ReleaseRefused(_) => o.pc.FailureStored?
    case CountPended(_) => o.pc.Queued?
    case Leave(_) => o.pc.RefusedReleased? || o.pc.Counted?
    case ItemCount(_) => o.item.Waiting?
    case ItemComplete(_) => o.item.ItemCounted?
    case ItemRelease(_) => o.item.OperationCompleted?
    case _ => false
  }

  predicate Enabled(s: State, e: Event)
  {
    match e
    case StopAccepting => s.unload.Running?
    case BeginWait => s.unload.Stopped?
    case FinishWait => s.unload.WaitingForRundown? && s.references == 0
    case _ => e.i < |s.ops| && Ready(s.ops[e.i], e)
  }

  // What event `e` does to its own operation, given what the thread reads of the shared flags.
  function Advance(o: Op, e: Event, accepting: bool, rundown: bool): (o': Op)
  {
    match e
    case Check(_) => if accepting then o.(pc := Checked) else o.(pc := Rejected, completions := o.completions + 1)
    case Acquire(_) =>
      if rundown then o.(pc := Rejected, completions := o.completions + 1) else o.(pc := Acquired, taken := o.taken + 1)
    case Admit(_) => o.(pc := Admitted)
    case Post(_, ok) =>
      if ok then o.(pc := Queued, item := Waiting) else o.(pc := Refused, completions := o.completions + 1)
    case StoreFailed(_) => o.(pc := FailureStored)
    case ReleaseRefused(_) => o.(pc := RefusedReleased, released := o.released + 1)
    case CountPended(_) => o.(pc := Counted)
    case Leave(_) => o.(pc := Returned(o.pc.Counted?))
    case ItemCount(_) => o.(item := ItemCounted)
    case ItemComplete(_) => o.(item := OperationCompleted, completions := o.completions + 1)
    case ItemRelease(_) => o.(item := ItemReleased, released := o.released + 1)
    case _ => o
  }

  // The atomic accesses to the shared fields.
  function Do(s: State, e: Event): (s': State)
    requires Enabled(s, e)
  {
    if IsUnload(e) then
      match e
      case StopAccepting => s.(accepting := false, unload := Stopped)
      case BeginWait => s.(rundown := true, unload := WaitingForRundown)
      case _ => s.(unload := ShutDown)
    else
      var t := s.(ops := s.ops[e.i := Advance(s.ops[e.i], e, s.accepting, s.rundown)]);
      match e
      case Acquire(_) => if s.rundown then t else t.(references := s.references + 1)
      case Admit(_) => t.(admissions := s.admissions + 1)
      case Post(_, ok) => t.(everRefused := s.everRefused || !ok)
      case StoreFailed(_) => t.(failed := true)
      case ReleaseRefused(_) => t.(references := s.references - 1)
      case CountPended(_) => t.(pended := s.pended + 1)
      case Leave(_) => t.(admissions := s.admissions - 1)
      case ItemCount(_) => t.(completed := s.completed + 1)
      case ItemRelease(_) => t.(references := s.references - 1)
      case _ => t
  }

  // may_reauthorize when its two loads are one step.
  predicate MayReauthorize(s: State) { !s.failed && s.admissions == 0 }

  // ---------------------------------------------------------------------------------------------------------
  // What each operation contributes to the shared counters
  // ---------------------------------------------------------------------------------------------------------

  datatype Counter = References | Admissions | Pended | Completed

  // Rundown references the posting thread and the work item hold.
  function ThreadHolds(pc: Pc): (n: nat)
  {
    match pc
    case Acquired => 1
    case Admitted => 1
    case Refused => 1
    case FailureStored => 1
    case _ => 0
  }

  function ItemHolds(item: Item): (n: nat)
  {
    match item
    case NoItem => 0
    case ItemReleased => 0
    case _ => 1
  }

  function Admission(pc: Pc): (n: nat)
  {
    match pc
    case Idle => 0
    case Checked => 0
    case Acquired => 0
    case Returned(_) => 0
    case Rejected => 0
    case _ => 1
  }

  function Share(o: Op, c: Counter): (n: nat)
  {
    match c
    case References => ThreadHolds(o.pc) + ItemHolds(o.item)
    case Admissions => Admission(o.pc)
    case Pended => if o.pc.Counted? || o.pc == Returned(true) then 1 else 0
    case Completed => if o.item.NoItem? || o.item.Waiting? then 0 else 1
  }

  function Total(ops: seq<Op>, c: Counter): (n: nat)
  {
    if ops == [] then 0 else Total(ops[..|ops| - 1], c) + Share(ops[|ops| - 1], c)
  }

  lemma {:induction false} TotalUpdate(ops: seq<Op>, i: nat, o: Op, c: Counter)
    requires i < |ops|
    ensures Total(ops[i := o], c) == Total(ops, c) - Share(ops[i], c) + Share(o, c)
  {
    hide Share;
    var n := |ops| - 1;
    if i == n {
      assert ops[i := o][..n] == ops[..n];
    } else {
      assert ops[i := o][..n] == ops[..n][i := o];
      TotalUpdate(ops[..n], i, o, c);
    }
  }

  lemma {:induction false} ShareAtMostTotal(ops: seq<Op>, i: nat, c: Counter)
    requires i < |ops|
    ensures Share(ops[i], c) <= Total(ops, c)
  {
    hide Share;
    if i < |ops| - 1 {
      ShareAtMostTotal(ops[..|ops| - 1], i, c);
    }
  }

  lemma {:induction false} SomeShare(ops: seq<Op>, c: Counter) returns (i: nat)
    requires Total(ops, c) > 0
    ensures i < |ops| && Share(ops[i], c) > 0
  {
    hide Share;
    var n := |ops| - 1;
    if Share(ops[n], c) > 0 {
      i := n;
    } else {
      i := SomeShare(ops[..n], c);
    }
  }

  // ---------------------------------------------------------------------------------------------------------
  // Invariant
  // ---------------------------------------------------------------------------------------------------------

  // A work item exists exactly when the executor accepted the operation.
  predicate WasQueued(pc: Pc) { pc.Queued? || pc.Counted? || pc == Returned(true) }

  predicate WasRefused(pc: Pc) { pc.Refused? || pc.FailureStored? || pc.RefusedReleased? || pc == Returned(false) }

  function Taken(pc: Pc): (n: nat) { if pc.Idle? || pc.Checked? || pc.Rejected? then 0 else 1 }

  function Released(pc: Pc, item: Item): (n: nat)
  {
    if pc.RefusedReleased? || pc == Returned(false) || item.ItemReleased? then 1 else 0
  }

  function Completions(pc: Pc, item: Item): (n: nat)
  {
    if pc.Rejected? || WasRefused(pc) || item.OperationCompleted? || item.ItemReleased? then 1 else 0
  }

  predicate OpOk(o: Op)
  {
    && (o.item.NoItem? <==> !WasQueued(o.pc))
    && o.taken == Taken(o.pc) && o.released == Released(o.pc, o.item) && o.completions == Completions(o.pc, o.item)
  }

  predicate CountersOk(s: State)
  {
    && s.references == Total(s.ops, References) && s.admissions == Total(s.ops, Admissions)
    && s.pended == Total(s.ops, Pended) && s.completed == Total(s.ops, Completed)
  }

  predicate AllOk(ops: seq<Op>)
  {
    forall i | 0 <= i < |ops| :: OpOk(ops[i])
  }

  // A refusal not yet published is still inside its admission.
  predicate FailClosed(s: State)
  {
    s.everRefused ==> s.failed || exists i :: 0 <= i < |s.ops| && s.ops[i].pc.Refused?
  }

  // Nothing but a refusal marks the queue failed.
  predicate OnlyRefused(s: State)
  {
    (s.failed ==> s.everRefused) && forall i | 0 <= i < |s.ops| :: s.ops[i].pc.Refused? ==> s.everRefused
  }

  predicate UnloadOk(s: State)
  {
    && (s.accepting <==> s.unload.Running?)
    && (s.rundown <==> s.unload.WaitingForRundown? || s.unload.ShutDown?)
    && (s.unload.ShutDown? ==> s.references == 0)
  }

  predicate Inv(s: State)
  {
    AllOk(s.ops) && CountersOk(s) && FailClosed(s) && OnlyRefused(s) && UnloadOk(s)
  }

  lemma AdvanceOk(o: Op, e: Event, accepting: bool, rundown: bool)
    requires OpOk(o) && Ready(o, e)
    ensures OpOk(Advance(o, e, accepting, rundown))
  {
  }

  // What event `e` adds to a counter.
  function Change(e: Event, rundown: bool, c: Counter): (d: int)
  {
    match e
    case Acquire(_) => if c.References? && !rundown then 1 else 0
    case Admit(_) => if c.Admissions? then 1 else 0
    case ReleaseRefused(_) => if c.References? then -1 else 0
    case CountPended(_) => if c.Pended? then 1 else 0
    case Leave(_) => if c.Admissions? then -1 else 0
    case ItemCount(_) => if c.Completed? then 1 else 0
    case ItemRelease(_) => if c.References? then -1 else 0
    case _ => 0
  }

  lemma ShareChange(o: Op, e: Event, accepting: bool, rundown: bool, c: Counter)
    requires OpOk(o) && Ready(o, e)
    ensures Share(Advance(o, e, accepting, rundown), c) == Share(o, c) + Change(e, rundown, c)
  {
  }

  lemma AllStep(s: State, e: Event)
    requires AllOk(s.ops) && Enabled(s, e)
    ensures AllOk(Do(s, e).ops)
  {
    hide OpOk, Advance, Ready;
    if !IsUnload(e) {
      AdvanceOk(s.ops[e.i], e, s.accepting, s.rundown);
    }
  }

  lemma TotalStep(s: State, e: Event, c: Counter)
    requires AllOk(s.ops) && Enabled(s, e)
    ensures Total(Do(s, e).ops, c) == Total(s.ops, c) + if IsUnload(e) then 0 else Change(e, s.rundown, c)
  {
    hide Share, Advance, OpOk, Change;
    if !IsUnload(e) {
      ShareChange(s.ops[e.i], e, s.accepting, s.rundown, c);
      TotalUpdate(s.ops, e.i, Advance(s.ops[e.i], e, s.accepting, s.rundown), c);
    }
  }

  lemma CountersStep(s: State, e: Event)
    requires AllOk(s.ops) && CountersOk(s) && Enabled(s, e)
    ensures CountersOk(Do(s, e))
  {
    hide Total, Advance, AllOk;
    TotalStep(s, e, References);
    TotalStep(s, e, Admissions);
    TotalStep(s, e, Pended);
    TotalStep(s, e, Completed);
  }

  lemma FailClosedStep(s: State, e: Event)
    requires FailClosed(s) && Enabled(s, e)
    ensures FailClosed(Do(s, e))
  {
    var t := Do(s, e);
    if e.Post? && !e.ok {
      assert t.ops[e.i].pc.Refused?;
    } else if s.everRefused && !s.failed {
      var i :| 0 <= i < |s.ops| && s.ops[i].pc.Refused?;
      assert t.failed || t.ops[i].pc.Refused?;
    }
  }

  lemma OnlyRefusedStep(s: State, e: Event)
    requires OnlyRefused(s) && Enabled(s, e)
    ensures OnlyRefused(Do(s, e))
  {
    hide Change;
    if !IsUnload(e) {
      hide Do;
      MovedFlags(s, e);
    }
  }

  lemma UnloadStep(s: State, e: Event)
    requires AllOk(s.ops) && CountersOk(s) && UnloadOk(s) && Enabled(s, e)
    ensures UnloadOk(Do(s, e))
  {
    hide Total, AllOk;
    if s.unload.ShutDown? && !IsUnload(e) {
      ShareAtMostTotal(s.ops, e.i, References);
    }
  }

  lemma StepKeeps(s: State, e: Event)
    requires Inv(s) && Enabled(s, e)
    ensures Inv(Do(s, e))
  {
    hide AllOk, CountersOk, FailClosed, OnlyRefused, UnloadOk, Do, Enabled;
    AllStep(s, e);
    CountersStep(s, e);
    FailClosedStep(s, e);
    OnlyRefusedStep(s, e);
    UnloadStep(s, e);
  }

  lemma {:induction false} TotalInitial(ops: seq<Op>, c: Counter)
    requires forall i | 0 <= i < |ops| :: ops[i] == FRESH
    ensures Total(ops, c) == 0
  {
    if ops != [] {
      TotalInitial(ops[..|ops| - 1], c);
    }
  }

  lemma InitialHolds(s: State)
    requires Initial(s)
    ensures Inv(s)
  {
    hide Total;
    TotalInitial(s.ops, References);
    TotalInitial(s.ops, Admissions);
    TotalInitial(s.ops, Pended);
    TotalInitial(s.ops, Completed);
  }

  // ---------------------------------------------------------------------------------------------------------
  // Runs
  // ---------------------------------------------------------------------------------------------------------

  predicate Run(s: State, run: seq<Event>)
    decreases |run|
  {
    run == [] || (Enabled(s, run[0]) && Run(Do(s, run[0]), run[1..]))
  }

  function After(s: State, run: seq<Event>): (s': State)
    requires Run(s, run)
    decreases |run|
  {
    if run == [] then s else After(Do(s, run[0]), run[1..])
  }

  ghost predicate Reachable(s: State)
  {
    exists s0, run :: Initial(s0) && Run(s0, run) && After(s0, run) == s
  }

  lemma {:induction false} RunKeeps(s: State, run: seq<Event>)
    requires Inv(s) && Run(s, run)
    ensures Inv(After(s, run))
    decreases |run|
  {
    hide Inv, Enabled, Do;
    if run != [] {
      StepKeeps(s, run[0]);
      RunKeeps(Do(s, run[0]), run[1..]);
    }
  }

  lemma ReachableInv(s: State)
    requires Reachable(s)
    ensures Inv(s)
  {
    var s0, run :| Initial(s0) && Run(s0, run) && After(s0, run) == s;
    InitialHolds(s0);
    RunKeeps(s0, run);
  }

  // The posting thread has returned and no work item is left.
  predicate Finished(o: Op)
  {
    (o.pc.Returned? || o.pc.Rejected?) && (o.item.NoItem? || o.item.ItemReleased?)
  }

  /**
   No operation takes or releases the rundown reference twice or is completed twice; once it is finished it has been
   completed, and has released exactly what it took.
   */
  lemma ReleasedAndCompletedOnce(s: State, i: nat)
    requires Reachable(s) && i < |s.ops|
    ensures var o := s.ops[i];
            && o.released <= o.taken <= 1 && o.completions <= 1
            && (o.taken == 1 && o.released == 0 <==> Share(o, References) == 1)
            && (Finished(o) ==> o.released == o.taken && o.completions == 1)
            && (o.pc == Returned(true) && Finished(o) ==> o.taken == 1)
  {
    ReachableInv(s);
    assert OpOk(s.ops[i]);
  }

  /** When every operation has finished or never started, the counters agree and nothing is held. */
  lemma Quiescent(s: State)
    requires Reachable(s) && (forall i | 0 <= i < |s.ops| :: Finished(s.ops[i]) || s.ops[i] == FRESH)
    ensures s.pended == s.completed && s.admissions == 0 && s.references == 0
  {
    ReachableInv(s);
    QuiescentTotals(s.ops);
  }

  lemma {:induction false} QuiescentTotals(ops: seq<Op>)
    requires AllOk(ops) && (forall i | 0 <= i < |ops| :: Finished(ops[i]) || ops[i] == FRESH)
    ensures Total(ops, Pended) == Total(ops, Completed) && Total(ops, Admissions) == 0 && Total(ops, References) == 0
  {
    if ops != [] {
      var n := |ops| - 1;
      assert OpOk(ops[n]);
      QuiescentTotals(ops[..n]);
    }
  }

  lemma {:induction false} ShutDownStays(s: State, run: seq<Event>)
    requires s.unload.ShutDown? && Run(s, run)
    ensures After(s, run).unload.ShutDown?
    decreases |run|
  {
    if run != [] {
      ShutDownStays(Do(s, run[0]), run[1..]);
    }
  }

  /** Once shutdown has returned, no work item is outstanding and the executor is never called again. */
  lemma NothingAfterShutdown(s: State, run: seq<Event>, i: nat)
    requires Reachable(s) && s.unload.ShutDown? && Run(s, run) && i < |After(s, run).ops|
    ensures var t := After(s, run);
            && Share(t.ops[i], References) == 0 && (t.ops[i].item.NoItem? || t.ops[i].item.ItemReleased?)
            && !Enabled(t, Post(i, true)) && !Enabled(t, Post(i, false))
  {
    hide After, AllOk, FailClosed, Run;
    ReachableInv(s);
    RunKeeps(s, run);
    ShutDownStays(s, run);
    ShareAtMostTotal(After(s, run).ops, i, References);
  }

  lemma {:induction false} FlagsStay(s: State, run: seq<Event>)
    requires Run(s, run)
    ensures s.everRefused ==> After(s, run).everRefused
    ensures s.failed ==> After(s, run).failed
    decreases |run|
  {
    if run != [] {
      FlagsStay(Do(s, run[0]), run[1..]);
    }
  }

  /** After a refusal the queue is forever inside an admission or marked failed, so one-step evaluation never permits. */
  lemma RefusalFailsClosed(s: State, run: seq<Event>)
    requires Reachable(s) && s.everRefused && Run(s, run)
    ensures var t := After(s, run);
            (t.failed || t.admissions > 0) && !MayReauthorize(t) && (s.failed ==> t.failed)
  {
    hide Run, After, AllOk, UnloadOk;
    ReachableInv(s);
    RunKeeps(s, run);
    FlagsStay(s, run);
    var t := After(s, run);
    if !t.failed {
      var i :| 0 <= i < |t.ops| && t.ops[i].pc.Refused?;
      ShareAtMostTotal(t.ops, i, Admissions);
    }
  }

  // ---------------------------------------------------------------------------------------------------------
  // may_reauthorize as the source evaluates it
  // ---------------------------------------------------------------------------------------------------------

  // failed_ is loaded in state `s`, and admissions_ after the steps of `run` by other threads.
  predicate TwoLoadsPermit(s: State, run: seq<Event>)
  {
    Run(s, run) && !s.failed && After(s, run).admissions == 0
  }

  // Steps left until the thread leaves its admission when the executor accepts.
  function Remaining(pc: Pc): (n: nat)
  {
    match pc
    case Admitted => 3
    case Refused => 3
    case FailureStored => 2
    case Queued => 2
    case RefusedReleased => 1
    case Counted => 1
    case _ => 0
  }

  function Onward(pc: Pc, i: nat): (e: Event)
    requires Admission(pc) == 1
  {
    match pc
    case Admitted => Post(i, true)
    case Refused => StoreFailed(i)
    case FailureStored => ReleaseRefused(i)
    case Queued => CountPended(i)
    case _ => Leave(i)
  }

  // Threads inside an admission can always run on until all have left it.
  lemma {:induction false} Drain(s: State) returns (run: seq<Event>)
    requires Inv(s)
    ensures Run(s, run) && After(s, run).admissions == 0
    decreases s.admissions, 4
  {
    if s.admissions == 0 {
      run := [];
    } else {
      var i := SomeShare(s.ops, Admissions);
      run := DrainThread(s, i);
    }
  }

  lemma {:induction false} DrainThread(s: State, i: nat) returns (run: seq<Event>)
    requires Inv(s) && i < |s.ops| && Admission(s.ops[i].pc) == 1
    ensures Run(s, run) && After(s, run).admissions == 0
    decreases s.admissions, Remaining(s.ops[i].pc)
  {
    hide Inv, Do, Enabled, Admission, Remaining, Onward;
    OnwardStep(s, i);
    var e := Onward(s.ops[i].pc, i);
    var t := Do(s, e);
    StepKeeps(s, e);
    var rest;
    assert s.admissions > 0 by { AdmissionCounted(s, i); }
    assert t.admissions >= 0 by { AdmissionsNatural(t); }
    if e.Leave? {
      rest := Drain(t);
    } else {
      rest := DrainThread(t, i);
    }
    RunCons(s, e, rest);
    run := [e] + rest;
  }

  lemma OnwardOp(o: Op, i: nat, accepting: bool, rundown: bool)
    requires Admission(o.pc) == 1
    ensures var e := Onward(o.pc, i);
            && !IsUnload(e) && e.i == i && Ready(o, e)
            && Change(e, rundown, Admissions) == (if e.Leave? then -1 else 0)
            && (!e.Leave? ==>
                  var o' := Advance(o, e, accepting, rundown);
                  Admission(o'.pc) == 1 && Remaining(o'.pc) < Remaining(o.pc))
  {
  }

  lemma OnwardStep(s: State, i: nat)
    requires i < |s.ops| && Admission(s.ops[i].pc) == 1
    ensures var e := Onward(s.ops[i].pc, i);
            && Enabled(s, e)
            && var t := Do(s, e);
            if e.Leave? then t.admissions == s.admissions - 1
            else
              && t.admissions == s.admissions && |t.ops| == |s.ops|
              && Admission(t.ops[i].pc) == 1 && Remaining(t.ops[i].pc) < Remaining(s.ops[i].pc)
  {
    hide Advance, Ready, Onward, Admission, Remaining, Change, Do;
    OnwardOp(s.ops[i], i, s.accepting, s.rundown);
    Moved(s, Onward(s.ops[i].pc, i));
  }

  lemma AdmissionCounted(s: State, i: nat)
    requires Inv(s) && i < |s.ops| && Admission(s.ops[i].pc) == 1
    ensures s.admissions > 0
  {
    ShareAtMostTotal(s.ops, i, Admissions);
  }

  lemma AdmissionsNatural(s: State)
    requires Inv(s)
    ensures s.admissions >= 0
  {
  }

  /**
   The two loads can come out as a permission exactly when failed_ has not been stored at the first of them,
   whether or not the executor has refused an operation by then.
   */
  lemma TwoLoadsExactly(s: State)
    requires Reachable(s)
    ensures (exists run :: TwoLoadsPermit(s, run)) <==> !s.failed
  {
    ReachableInv(s);
    if !s.failed {
      var run := Drain(s);
      assert TwoLoadsPermit(s, run);
    }
  }

  function Start(n: nat): (s: State)
    ensures Initial(s) && |s.ops| == n
  {
    State(seq(n, _ => FRESH), true, false, 0, 0, 0, 0, false, Running, false)
  }

  lemma {:induction false} RunSnoc(s: State, run: seq<Event>, e: Event)
    requires Run(s, run) && Enabled(After(s, run), e)
    ensures Run(s, run + [e]) && After(s, run + [e]) == Do(After(s, run), e)
    decreases |run|
  {
    hide Enabled, Do;
    if run == [] {
      assert run + [e] == [e];
      RunOne(s, e);
    } else {
      RunSnoc(Do(s, run[0]), run[1..], e);
      assert (run + [e])[0] == run[0] && (run + [e])[1..] == run[1..] + [e];
    }
  }

  lemma ReachableNext(s: State, e: Event)
    requires Reachable(s) && Enabled(s, e)
    ensures Reachable(Do(s, e))
  {
    hide Enabled, Do, Run, After, Initial;
    var s0, run :| Initial(s0) && Run(s0, run) && After(s0, run) == s;
    RunSnoc(s0, run, e);
  }

  lemma StartReachable(n: nat)
    ensures Reachable(Start(n))
  {
    assert Run(Start(n), []) && After(Start(n), []) == Start(n);
  }

  // The states of one operation on its way through `post`, everything else as at the start.
  function Single(o: Op, failed: bool, admissions: int, references: int, refused: bool): (s: State)
  {
    State([o], true, failed, admissions, 0, 0, references, false, Running, refused)
  }

  // One step of that operation.
  lemma SingleStep(s: State, e: Event)
    requires |s.ops| == 1 && !IsUnload(e) && e.i == 0 && Ready(s.ops[0], e)
    ensures Enabled(s, e) && Do(s, e).ops == [Advance(s.ops[0], e, s.accepting, s.rundown)]
  {
    hide Advance, Ready;
  }

  // The first operation is admitted.
  lemma AdmittedReachable() returns (s: State)
    ensures s == Single(Op(Admitted, NoItem, 1, 0, 0), false, 1, 1, false) && Reachable(s)
  {
    hide Reachable;
    s := AcquiredReachable();
    SingleStep(s, Admit(0));
    ReachableNext(s, Admit(0));
    s := Do(s, Admit(0));
  }

  lemma AcquiredReachable() returns (s: State)
    ensures s == Single(Op(Acquired, NoItem, 1, 0, 0), false, 0, 1, false) && Reachable(s)
  {
    hide Reachable;
    s := CheckedReachable();
    SingleStep(s, Acquire(0));
    ReachableNext(s, Acquire(0));
    s := Do(s, Acquire(0));
  }

  lemma CheckedReachable() returns (s: State)
    ensures s == Single(Op(Checked, NoItem, 0, 0, 0), false, 0, 0, false) && Reachable(s)
  {
    hide Reachable;
    StartReachable(1);
    s := Start(1);
    assert s.ops == [FRESH];
    SingleStep(s, Check(0));
    ReachableNext(s, Check(0));
    s := Do(s, Check(0));
  }

  // The executor refuses it.
  lemma RefusedReachable() returns (s: State)
    ensures s == Single(Op(Refused, NoItem, 1, 0, 1), false, 1, 1, true) && Reachable(s)
  {
    hide Reachable;
    s := AdmittedReachable();
    SingleStep(s, Post(0, false));
    ReachableNext(s, Post(0, false));
    s := Do(s, Post(0, false));
  }

  lemma RunOne(s: State, e: Event)
    requires Enabled(s, e)
    ensures Run(s, [e]) && After(s, [e]) == Do(s, e)
  {
    assert [e][1..] == [];
  }

  lemma RunCons(s: State, e: Event, rest: seq<Event>)
    requires Enabled(s, e) && Run(Do(s, e), rest)
    ensures Run(s, [e] + rest) && After(s, [e] + rest) == After(Do(s, e), rest)
  {
    assert ([e] + rest)[1..] == rest;
  }

  // The refusing thread runs on until it leaves its admission.
  lemma LeavingRun() returns (s: State, run: seq<Event>)
    ensures s == Single(Op(RefusedReleased, NoItem, 1, 1, 1), true, 1, 0, true)
    ensures Run(s, run) && After(s, run).admissions == 0
  {
    s := Single(Op(RefusedReleased, NoItem, 1, 1, 1), true, 1, 0, true);
    SingleStep(s, Leave(0));
    RunOne(s, Leave(0));
    run := [Leave(0)];
  }

  lemma ReleasingRun() returns (s: State, run: seq<Event>)
    ensures s == Single(Op(FailureStored, NoItem, 1, 0, 1), true, 1, 1, true)
    ensures Run(s, run) && After(s, run).admissions == 0
  {
    hide Run, After;
    s := Single(Op(FailureStored, NoItem, 1, 0, 1), true, 1, 1, true);
    var t, rest := LeavingRun();
    SingleStep(s, ReleaseRefused(0));
    assert Do(s, ReleaseRefused(0)) == t;
    RunCons(s, ReleaseRefused(0), rest);
    run := [ReleaseRefused(0)] + rest;
  }

  /** A reauthorization that starts after a refusal and is permitted: failed_ is stored between the two loads. */
  lemma RefusalThenPermission() returns (s: State, run: seq<Event>)
    ensures Reachable(s) && s.everRefused && TwoLoadsPermit(s, run)
  {
    hide Run, After, Reachable;
    s := RefusedReachable();
    var t, rest := ReleasingRun();
    SingleStep(s, StoreFailed(0));
    assert Do(s, StoreFailed(0)) == t;
    RunCons(s, StoreFailed(0), rest);
    run := [StoreFailed(0)] + rest;
  }

  /** An operation rejected because of shutdown does not fail the queue closed: it is completed and then permitted. */
  lemma RejectionThenPermission() returns (s: State)
    ensures Reachable(s) && s.ops == [Op(Rejected, NoItem, 0, 0, 1)] && MayReauthorize(s)
  {
    hide Reachable;
    StartReachable(1);
    var s0 := Start(1);
    assert s0.ops == [FRESH];
    ReachableNext(s0, StopAccepting);
    s := Do(s0, StopAccepting);
    SingleStep(s, Check(0));
    ReachableNext(s, Check(0));
    s := Do(s, Check(0));
  }

  // ---------------------------------------------------------------------------------------------------------
  // What the queue achieves
  // ---------------------------------------------------------------------------------------------------------

  lemma SomeoneAdmitted(s: State)
    requires Inv(s) && s.admissions > 0
    ensures exists i :: 0 <= i < |s.ops| && Admission(s.ops[i].pc) == 1
  {
    hide AllOk, FailClosed, OnlyRefused, UnloadOk, Admission;
    var i := SomeShare(s.ops, Admissions);
    AdmissionIsOne(s.ops[i].pc);
  }

  lemma AdmissionIsOne(pc: Pc)
    ensures Admission(pc) == 0 || Admission(pc) == 1
  {
  }

  /** In one step reauthorization is permitted exactly when nothing was ever refused and no thread is in an admission. */
  lemma PermittedExactly(s: State)
    requires Reachable(s)
    ensures MayReauthorize(s) <==> !s.everRefused && forall i | 0 <= i < |s.ops| :: Admission(s.ops[i].pc) == 0
  {
    hide Reachable, Admission, AllOk, CountersOk, UnloadOk;
    ReachableInv(s);
    AdmissionsNatural(s);
    if s.everRefused {
      RefusalFailsClosed(s, []);
    } else if s.admissions > 0 {
      SomeoneAdmitted(s);
    } else {
      forall i | 0 <= i < |s.ops| ensures Admission(s.ops[i].pc) == 0 {
        AdmissionIsOne(s.ops[i].pc);
        if Admission(s.ops[i].pc) == 1 {
          AdmissionCounted(s, i);
        }
      }
    }
  }

  // Everything a step of operation i does.
  lemma Moved(s: State, e: Event)
    requires Enabled(s, e) && !IsUnload(e)
    ensures Do(s, e) == s.(ops := s.ops[e.i := Advance(s.ops[e.i], e, s.accepting, s.rundown)],
                           references := s.references + Change(e, s.rundown, References),
                           admissions := s.admissions + Change(e, s.rundown, Admissions),
                           pended := s.pended + Change(e, s.rundown, Pended),
                           completed := s.completed + Change(e, s.rundown, Completed),
                           failed := s.failed || e.StoreFailed?, everRefused := s.everRefused || (e.Post? && !e.ok))
  {
    hide Advance, Ready, Do;
    MovedFlags(s, e);
    MovedCounter(s, e, References);
    MovedCounter(s, e, Admissions);
    MovedCounter(s, e, Pended);
    MovedCounter(s, e, Completed);
  }

  lemma MovedFlags(s: State, e: Event)
    requires Enabled(s, e) && !IsUnload(e)
    ensures var t := Do(s, e);
            && t.ops == s.ops[e.i := Advance(s.ops[e.i], e, s.accepting, s.rundown)]
            && t.accepting == s.accepting && t.rundown == s.rundown && t.unload == s.unload
            && t.failed == (s.failed || e.StoreFailed?) && t.everRefused == (s.everRefused || (e.Post? && !e.ok))
  {
    hide Advance, Ready;
  }

  function CounterOf(s: State, c: Counter): (n: int)
  {
    match c
    case References => s.references
    case Admissions => s.admissions
    case Pended => s.pended
    case Completed => s.completed
  }

  lemma MovedCounter(s: State, e: Event, c: Counter)
    requires Enabled(s, e) && !IsUnload(e)
    ensures CounterOf(Do(s, e), c) == CounterOf(s, c) + Change(e, s.rundown, c)
  {
    hide Advance, Ready;
  }

  lemma {:induction false} RunOf(s: State, run: seq<Event>, ss: seq<State>)
    requires |ss| == |run| + 1 && ss[0] == s
    requires forall i | 0 <= i < |run| :: Enabled(ss[i], run[i]) && ss[i + 1] == Do(ss[i], run[i])
    ensures Run(s, run) && After(s, run) == ss[|run|]
    decreases |run|
  {
    hide Do, Enabled;
    if run != [] {
      RunOf(ss[1], run[1..], ss[1..]);
    }
  }

  lemma {:induction false} RunBoth(s: State, a: seq<Event>, b: seq<Event>)
    requires Run(s, a) && Run(After(s, a), b)
    ensures Run(s, a + b) && After(s, a + b) == After(After(s, a), b)
    decreases |a|
  {
    hide Do, Enabled;
    if a == [] {
      assert a + b == b;
    } else {
      RunBoth(Do(s, a[0]), a[1..], b);
      assert (a + b)[0] == a[0] && (a + b)[1..] == a[1..] + b;
    }
  }

  // The thread posting operation i is admitted.
  lemma Admits(s: State, i: nat) returns (t: State)
    requires i < |s.ops| && s.ops[i] == FRESH && s.accepting && !s.rundown
    ensures Run(s, [Check(i), Acquire(i), Admit(i)]) && After(s, [Check(i), Acquire(i), Admit(i)]) == t
    ensures t == s.(ops := s.ops[i := Op(Admitted, NoItem, 1, 0, 0)], references := s.references + 1, admissions := s.admissions + 1)
  {
    hide Do, Run, After;
    Moved(s, Check(i));
    var s1 := Do(s, Check(i));
    Moved(s1, Acquire(i));
    var s2 := Do(s1, Acquire(i));
    Moved(s2, Admit(i));
    t := Do(s2, Admit(i));
    RunOf(s, [Check(i), Acquire(i), Admit(i)], [s, s1, s2, t]);
  }

  // The executor accepts it, and the thread returns.
  lemma Pends(s: State, i: nat) returns (t: State)
    requires i < |s.ops| && s.ops[i] == Op(Admitted, NoItem, 1, 0, 0)
    ensures Run(s, [Post(i, true), CountPended(i), Leave(i)]) && After(s, [Post(i, true), CountPended(i), Leave(i)]) == t
    ensures t == s.(ops := s.ops[i := Op(Returned(true), Waiting, 1, 0, 0)], admissions := s.admissions - 1, pended := s.pended + 1)
  {
    hide Do, Run, After;
    Moved(s, Post(i, true));
    var s1 := Do(s, Post(i, true));
    Moved(s1, CountPended(i));
    var s2 := Do(s1, CountPended(i));
    Moved(s2, Leave(i));
    t := Do(s2, Leave(i));
    RunOf(s, [Post(i, true), CountPended(i), Leave(i)], [s, s1, s2, t]);
  }

  // The work item completes the operation and releases the queue.
  lemma WorksOff(s: State, i: nat) returns (t: State)
    requires i < |s.ops| && s.ops[i] == Op(Returned(true), Waiting, 1, 0, 0)
    ensures Run(s, [ItemCount(i), ItemComplete(i), ItemRelease(i)]) && After(s, [ItemCount(i), ItemComplete(i), ItemRelease(i)]) == t
    ensures t == s.(ops := s.ops[i := Op(Returned(true), ItemReleased, 1, 1, 1)], references := s.references - 1, completed := s.completed + 1)
  {
    hide Do, Run, After;
    Moved(s, ItemCount(i));
    var s1 := Do(s, ItemCount(i));
    Moved(s1, ItemComplete(i));
    var s2 := Do(s1, ItemComplete(i));
    Moved(s2, ItemRelease(i));
    t := Do(s2, ItemRelease(i));
    RunOf(s, [ItemCount(i), ItemComplete(i), ItemRelease(i)], [s, s1, s2, t]);
  }

  /** While the queue accepts, a posted operation that the executor takes is pended, completed and released, each once. */
  lemma PostSucceeds(s: State, i: nat) returns (run: seq<Event>)
    requires i < |s.ops| && s.ops[i] == FRESH && s.accepting && !s.rundown
    ensures Run(s, run)
    ensures After(s, run) == s.(ops := s.ops[i := Op(Returned(true), ItemReleased, 1, 1, 1)],
                                pended := s.pended + 1, completed := s.completed + 1)
  {
    hide Run, After;
    var s1 := Admits(s, i);
    var s2 := Pends(s1, i);
    var s3 := WorksOff(s2, i);
    var a, b, c := [Check(i), Acquire(i), Admit(i)], [Post(i, true), CountPended(i), Leave(i)],
      [ItemCount(i), ItemComplete(i), ItemRelease(i)];
    RunBoth(s, a, b);
    RunBoth(s, a + b, c);
    run := a + b + c;
  }

  /** One that the executor refuses fails the queue, is completed once and holds nothing afterwards. */
  lemma RefusedPost(s: State, i: nat) returns (run: seq<Event>)
    requires i < |s.ops| && s.ops[i] == FRESH && s.accepting && !s.rundown
    ensures Run(s, run)
    ensures After(s, run) == s.(ops := s.ops[i := Op(Returned(false), NoItem, 1, 1, 1)], failed := true, everRefused := true)
  {
    hide Do, Run, After;
    var s1 := Admits(s, i);
    Moved(s1, Post(i, false));
    var s2 := Do(s1, Post(i, false));
    Moved(s2, StoreFailed(i));
    var s3 := Do(s2, StoreFailed(i));
    Moved(s3, ReleaseRefused(i));
    var s4 := Do(s3, ReleaseRefused(i));
    Moved(s4, Leave(i));
    var s5 := Do(s4, Leave(i));
    var a, b := [Check(i), Acquire(i), Admit(i)], [Post(i, false), StoreFailed(i), ReleaseRefused(i), Leave(i)];
    RunOf(s1, b, [s1, s2, s3, s4, s5]);
    RunBoth(s, a, b);
    run := a + b;
  }

  /** Once shutdown has begun a posted operation is rejected, at the flag or at the rundown reference, and completed. */
  lemma RejectedPost(s: State, i: nat)
    requires i < |s.ops|
    ensures !s.accepting && s.ops[i] == FRESH ==>
              Do(s, Check(i)) == s.(ops := s.ops[i := Op(Rejected, NoItem, 0, 0, 1)])
    ensures s.rundown && s.ops[i] == Op(Checked, NoItem, 0, 0, 0) ==>
              Do(s, Acquire(i)) == s.(ops := s.ops[i := Op(Rejected, NoItem, 0, 0, 1)])
  {
  }

  // Steps left until the operation has released its reference when the executor refuses what is not queued yet.
  function Held(o: Op): (n: nat)
  {
    match o.pc
    case Acquired => 4
    case Admitted => 3
    case Refused => 2
    case FailureStored => 1
    case _ =>
      match o.item
      case Waiting => 3
      case ItemCounted => 2
      case OperationCompleted => 1
      case _ => 0
  }

  function Freeing(o: Op, i: nat): (e: Event)
  {
    match o.pc
    case Acquired => Admit(i)
    case Admitted => Post(i, false)
    case Refused => StoreFailed(i)
    case FailureStored => ReleaseRefused(i)
    case _ =>
      match o.item
      case Waiting => ItemCount(i)
      case ItemCounted => ItemComplete(i)
      case _ => ItemRelease(i)
  }

  lemma FreeingOp(o: Op, i: nat, accepting: bool, rundown: bool)
    requires OpOk(o) && Share(o, References) > 0
    ensures var e := Freeing(o, i);
            && !IsUnload(e) && e.i == i && Ready(o, e)
            && Change(e, rundown, References) == (if Held(o) == 1 then -1 else 0)
            && (Held(o) != 1 ==>
                  var o' := Advance(o, e, accepting, rundown);
                  Share(o', References) > 0 && Held(o') < Held(o))
  {
  }

  // The holders of the rundown reference can always run on until all have released it.
  lemma {:induction false} DrainReferences(s: State) returns (run: seq<Event>)
    requires Inv(s)
    ensures Run(s, run) && After(s, run).references == 0 && After(s, run).unload == s.unload
    decreases s.references, 5
  {
    hide AllOk, FailClosed, OnlyRefused, UnloadOk, Share;
    if s.references == 0 {
      run := [];
    } else {
      hide Run, After;
      var i := SomeShare(s.ops, References);
      run := FreeReference(s, i);
    }
  }

  lemma {:induction false} FreeReference(s: State, i: nat) returns (run: seq<Event>)
    requires Inv(s) && i < |s.ops| && Share(s.ops[i], References) > 0
    ensures Run(s, run) && After(s, run).references == 0 && After(s, run).unload == s.unload
    decreases s.references, Held(s.ops[i])
  {
    hide Inv, Do, Enabled, Share, Held, Freeing, Run, After;
    FreeingStep(s, i);
    var e := Freeing(s.ops[i], i);
    var t := Do(s, e);
    StepKeeps(s, e);
    ReferencesNatural(t);
    var rest;
    if Held(s.ops[i]) == 1 {
      rest := DrainReferences(t);
    } else {
      rest := FreeReference(t, i);
    }
    RunCons(s, e, rest);
    run := [e] + rest;
  }

  lemma ReferencesNatural(s: State)
    requires Inv(s)
    ensures s.references >= 0
  {
  }

  lemma FreeingStep(s: State, i: nat)
    requires Inv(s) && i < |s.ops| && Share(s.ops[i], References) > 0
    ensures var e := Freeing(s.ops[i], i);
            && s.references > 0 && Enabled(s, e)
            && var t := Do(s, e);
            && t.unload == s.unload && |t.ops| == |s.ops|
            && t.references == s.references - (if Held(s.ops[i]) == 1 then 1 else 0)
            && (Held(s.ops[i]) != 1 ==> Share(t.ops[i], References) > 0 && Held(t.ops[i]) < Held(s.ops[i]))
  {
    hide Advance, Ready, Freeing, Share, Held, Change, Do, FailClosed, OnlyRefused, UnloadOk;
    assert OpOk(s.ops[i]);
    ShareAtMostTotal(s.ops, i, References);
    FreeingOp(s.ops[i], i, s.accepting, s.rundown);
    Moved(s, Freeing(s.ops[i], i));
  }

  /** Shutdown can always complete: from every reachable state some run ends with it returned. */
  lemma ShutdownCompletes(s: State) returns (run: seq<Event>)
    requires Reachable(s)
    ensures Run(s, run) && After(s, run).unload.ShutDown?
  {
    hide Reachable, Inv, Run, After;
    ReachableInv(s);
    run := EndsShutDown(s);
  }

  lemma {:induction false} EndsShutDown(s: State) returns (run: seq<Event>)
    requires Inv(s)
    ensures Run(s, run) && After(s, run).unload.ShutDown?
    decreases match s.unload case Running => 3 case Stopped => 2 case WaitingForRundown => 1 case ShutDown => 0
  {
    hide Inv;
    match s.unload
    case ShutDown => run := [];
    case Running =>
      StepKeeps(s, StopAccepting);
      var rest := EndsShutDown(Do(s, StopAccepting));
      RunCons(s, StopAccepting, rest);
      run := [StopAccepting] + rest;
    case Stopped =>
      StepKeeps(s, BeginWait);
      var rest := EndsShutDown(Do(s, BeginWait));
      RunCons(s, BeginWait, rest);
      run := [BeginWait] + rest;
    case WaitingForRundown =>
      hide Run, After;
      var drain := DrainReferences(s);
      var t := After(s, drain);
      RunSnoc(s, drain, FinishWait);
      run := drain + [FinishWait];
  }
}
