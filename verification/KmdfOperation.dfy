/**
 The KMDF reference driver's delayed operation: dispatch, cancellation and timer callbacks racing over one request.
 The framework runs the callbacks of a queue one at a time, a sequential queue presents a request only after the
 previous one was completed, and unmarking a request reports CANCELLED exactly when its cancel callback has yet to run.
 A timer callback may arrive at any time, also after the timer was stopped without waiting.
 */
module KmdfOperation {
  import Arithmetic
  import opened Options

  const WORD: nat := 0x1_0000_0000
  const MAXIMUM_DELAY_MS: nat := 30000

  type Request = nat

  datatype Status =
    | Success
    | Cancelled
    | DeviceBusy
    | RevisionMismatch
    | InvalidParameter
    | InvalidDeviceState
    | InvalidDeviceRequest
    | InsufficientResources
    | Unsuccessful
    | Other(code: nat)

  // An accepted operation: what its request asked for and the sequence number it was given.
  datatype Operation = Operation(request: Request, value: nat, session: nat, sequence: nat)

  datatype Reply = Reply(value: nat, session: nat, sequence: nat)

  datatype Completion = Completion(request: Request, status: Status, reply: Option<Reply>)

  // Whether the framework may cancel the outstanding request, and whether its cancel callback is on its way.
  datatype Cancel = Unmarked | Marked | CallbackDue

  /** queue_state and the counters of device_state, followed by the framework's side of the queue and the history. */
  datatype State = State(
    current: Option<Request>, value: nat, session: nat, sequence: nat,
    nextSequence: nat, completed: nat, canceled: nat, prepared: bool, inD0: bool,
    outstanding: Option<Request>, cancel: Cancel, log: seq<Completion>, accepted: seq<Operation>, errors: nat,
    fault: bool)

  predicate Initial(s: State)
  {
    && s.current.None? && s.nextSequence == 1 && s.completed == 0 && s.canceled == 0
    && s.outstanding.None? && s.cancel.Unmarked? && s.log == [] && s.accepted == [] && s.errors == 0 && !s.fault
  }

  // The 32-bit counters of the source.
  function Wrap(n: nat): nat { n % WORD }

  function Next(n: nat): nat { Wrap(n + 1) }

  // Completing a request that is not outstanding would be a second completion.
  function Complete(s: State, r: Request, status: Status, reply: Option<Reply>): (s': State)
  {
    s.(log := s.log + [Completion(r, status, reply)], outstanding := None, cancel := Unmarked,
       fault := s.fault || s.outstanding != Some(r))
  }

  function Presented(s: State, r: Request): (s': State) { s.(outstanding := Some(r), cancel := Unmarked) }

  function SetCancel(s: State, c: Cancel): (s': State) { s.(cancel := c) }

  // The control request as the framework presents it: the input buffer if it could be retrieved, its header check,
  // the session of its file object, and the result of trying to mark it cancelable.
  datatype Control =
    | Query(input: Status, headerValid: bool, output: Status, session: nat)
    | Operate(input: Status, headerValid: bool, value: nat, delay: nat, session: nat, mark: Status)
    | Unknown

  function QueryStep(s: State, r: Request, c: Control): (s': State)
    requires c.Query?
  {
    if c.input != Success then Complete(s, r, c.input, None)
    else if !c.headerValid then Complete(s, r, RevisionMismatch, None)
    else if c.output != Success then Complete(s, r, c.output, None)
    else if !s.prepared || !s.inD0 then Complete(s, r, InvalidDeviceState, None)
    else Complete(s, r, Success, Some(Reply(0, c.session, 0)))
  }

  // An operation is accepted: it takes the next sequence number and becomes the current request.
  function Accept(s: State, r: Request, c: Control): (s': State)
    requires c.Operate?
  {
    s.(current := Some(r), value := c.value, session := c.session, sequence := s.nextSequence,
       nextSequence := Next(s.nextSequence), accepted := s.accepted + [Operation(r, c.value, c.session, s.nextSequence)])
  }

  function Uncurrent(s: State, mark: Status): (s': State)
  {
    s.(current := None, canceled := if mark == Cancelled then Next(s.canceled) else s.canceled,
       errors := if mark == Cancelled then s.errors else s.errors + 1)
  }

  // The accepted request could not be marked cancelable.
  function RefusedMark(s: State, r: Request, mark: Status): (s': State)
  {
    Complete(Uncurrent(s, mark), r, mark, None)
  }

  function StartStep(s: State, r: Request, c: Control): (s': State)
    requires c.Operate?
  {
    var t := Accept(s, r, c);
    if c.mark == Success then SetCancel(t, Marked) else RefusedMark(t, r, c.mark)
  }

  function OperateStep(s: State, r: Request, c: Control): (s': State)
    requires c.Operate?
  {
    if c.input != Success then Complete(s, r, c.input, None)
    else if !c.headerValid then Complete(s, r, RevisionMismatch, None)
    else if c.delay == 0 || c.delay > MAXIMUM_DELAY_MS then Complete(s, r, InvalidParameter, None)
    else if !s.prepared || !s.inD0 then Complete(s, r, InvalidDeviceState, None)
    else if s.current.Some? then Complete(s, r, DeviceBusy, None)
    else StartStep(s, r, c)
  }

  // The framework presents a request to device_control.
  function DispatchStep(s: State, r: Request, c: Control): (s': State)
  {
    var t := Presented(s, r);
    match c
    case Query(_, _, _, _) => QueryStep(t, r, c)
    case Operate(_, _, _, _, _, _) => OperateStep(t, r, c)
    case Unknown => Complete(t, r, InvalidDeviceRequest, None)
  }

  // cancel_request.
  function CancelStep(s: State, r: Request): (s': State)
  {
    var t := s.(current := if s.current == Some(r) then None else s.current, canceled := Next(s.canceled));
    Complete(t, r, Cancelled, None)
  }

  // complete_operation; the output buffer and the formatting of the reply may fail.
  function FinishStep(s: State, r: Request, output: Status): (s': State)
  {
    var t := s.(completed := Next(s.completed));
    if output != Success then Complete(t, r, output, None)
    else Complete(t, r, Success, Some(Reply(Wrap(3 * s.value + 1), s.session, s.sequence)))
  }

  // timer_expired; `error` is a failure of unmarking other than the race with cancellation.
  function TimerStep(s: State, error: Option<Status>, output: Status): (s': State)
  {
    if s.current.None? then s
    else if s.cancel.CallbackDue? then s
    else
      var r := s.current.value;
      if error.Some? then
        Complete(s.(current := None, cancel := Unmarked, errors := s.errors + 1), r, error.value, None)
      else FinishStep(s.(current := None, cancel := Unmarked), r, output)
  }

  datatype Event =
    | Dispatch(r: Request, c: Control)
    | UserCancel
    | CancelCallback(r: Request)
    | TimerCallback(error: Option<Status>, output: Status)
    | Power(prepared: bool, inD0: bool)

  predicate Logged(log: seq<Completion>, r: Request)
  {
    exists i :: 0 <= i < |log| && log[i].request == r
  }

  predicate Enabled(s: State, e: Event)
  {
    match e
    case Dispatch(r, c) => s.outstanding.None? && !Logged(s.log, r)
    case UserCancel => s.outstanding.Some? && s.cancel.Marked?
    case CancelCallback(r) => s.outstanding == Some(r) && s.cancel.CallbackDue?
    case TimerCallback(error, _) => error.Some? ==> error.value != Success && error.value != Cancelled
    case Power(_, _) => true
  }

  function Do(s: State, e: Event): (s': State)
  {
    match e
    case Dispatch(r, c) => DispatchStep(s, r, c)
    case UserCancel => SetCancel(s, CallbackDue)
    case CancelCallback(r) => CancelStep(s, r)
    case TimerCallback(error, output) => TimerStep(s, error, output)
    case Power(prepared, inD0) => s.(prepared := prepared, inD0 := inD0)
  }

  // ---------------------------------------------------------------------------------------------------------
  // Invariant
  // ---------------------------------------------------------------------------------------------------------

  function Pending(s: State): nat { if s.current.Some? then 1 else 0 }

  // Between callbacks the one incomplete request is the current one, it can be cancelled, and the queue state holds
  // what it was accepted with.
  predicate CurrentOk(s: State)
  {
    && s.current == s.outstanding
    && (s.current.None? <==> s.cancel.Unmarked?)
    && (s.current.Some? ==>
          && s.accepted != []
          && s.accepted[|s.accepted| - 1] == Operation(s.current.value, s.value, s.session, s.sequence))
  }

  predicate AcceptedOnce(accepted: seq<Operation>)
  {
    forall i, j | 0 <= i < j < |accepted| :: accepted[i].request != accepted[j].request
  }

  predicate LoggedOnce(log: seq<Completion>)
  {
    forall i, j | 0 <= i < j < |log| :: log[i].request != log[j].request
  }

  // Nothing is completed twice, the outstanding request is not completed, and every other accepted one is.
  predicate CompletionsOk(s: State)
  {
    && !s.fault && LoggedOnce(s.log) && AcceptedOnce(s.accepted)
    && (s.outstanding.Some? ==> !Logged(s.log, s.outstanding.value))
    && (forall k | 0 <= k < |s.accepted| ::
          s.outstanding == Some(s.accepted[k].request) || Logged(s.log, s.accepted[k].request))
  }

  predicate Answers(c: Completion, op: Operation)
  {
    && c.request == op.request && c.status == Success
    && c.reply == Some(Reply((3 * op.value + 1) % 0x1_0000_0000, op.session, op.sequence))
  }

  // A reply to an accepted request answers it.
  predicate ReplyOk(c: Completion, accepted: seq<Operation>)
  {
    c.reply.Some? ==> forall k | 0 <= k < |accepted| && accepted[k].request == c.request :: Answers(c, accepted[k])
  }

  predicate RepliesOk(s: State)
  {
    forall i | 0 <= i < |s.log| :: ReplyOk(s.log[i], s.accepted)
  }

  // Operations are numbered in the order of acceptance, and each is completed, cancelled, failed or pending.
  predicate Accounted(s: State)
  {
    && s.nextSequence == Wrap(1 + |s.accepted|)
    && (forall k | 0 <= k < |s.accepted| :: s.accepted[k].sequence == Wrap(1 + k))
    && Wrap(|s.accepted|) == Wrap(s.completed + s.canceled + s.errors + Pending(s))
  }

  predicate Inv(s: State)
  {
    CurrentOk(s) && CompletionsOk(s) && RepliesOk(s) && Accounted(s)
  }

  // ---------------------------------------------------------------------------------------------------------
  // Every step keeps the invariant
  // ---------------------------------------------------------------------------------------------------------

  lemma NextIs(n: nat, rest: nat)
    ensures Wrap(Next(n) + rest) == Wrap(n + 1 + rest)
  {
    Arithmetic.RemainderOfSum(n + 1, rest, WORD);
  }

  lemma LoggedAppend(log: seq<Completion>, c: Completion, r: Request)
    ensures Logged(log + [c], r) <==> Logged(log, r) || c.request == r
  {
    if c.request == r {
      assert (log + [c])[|log|] == c;
    }
    if i :| 0 <= i < |log| && log[i].request == r {
      assert (log + [c])[i].request == r;
    }
  }

  // Completing the outstanding request.
  lemma CompleteKeeps(s: State, r: Request, status: Status, reply: Option<Reply>)
    requires !s.fault && LoggedOnce(s.log) && AcceptedOnce(s.accepted) && s.outstanding == Some(r) && !Logged(s.log, r)
    requires forall k | 0 <= k < |s.accepted| :: s.accepted[k].request == r || Logged(s.log, s.accepted[k].request)
    requires RepliesOk(s) && ReplyOk(Completion(r, status, reply), s.accepted)
    ensures CompletionsOk(Complete(s, r, status, reply)) && RepliesOk(Complete(s, r, status, reply))
  {
    var c := Completion(r, status, reply);
    var t := Complete(s, r, status, reply);
    forall k | 0 <= k < |s.accepted| ensures Logged(t.log, s.accepted[k].request) {
      LoggedAppend(s.log, c, s.accepted[k].request);
    }
    forall i, j | 0 <= i < j < |t.log| ensures t.log[i].request != t.log[j].request {
      assert i < |s.log| && t.log[i] == s.log[i];
    }
  }

  // A request was presented and is completed in the same callback without being accepted.
  lemma ImmediateKeeps(s: State, r: Request, status: Status, reply: Option<Reply>)
    requires Inv(s) && s.outstanding.None? && !Logged(s.log, r)
    ensures Inv(Complete(s.(outstanding := Some(r), cancel := Unmarked), r, status, reply))
  {
    hide LoggedOnce, AcceptedOnce, Logged, Answers;
    CompleteKeeps(s.(outstanding := Some(r), cancel := Unmarked), r, status, reply);
  }

  function Pended(s: State, r: Request, c: Control): (s': State)
    requires c.Operate?
  {
    SetCancel(Accept(Presented(s, r), r, c), Marked)
  }

  lemma SumStep(n: nat, m: nat)
    requires Wrap(n) == Wrap(m)
    ensures Wrap(n + 1) == Wrap(m + 1)
  {
    Arithmetic.RemainderOfSum(n, 1, WORD);
    Arithmetic.RemainderOfSum(m, 1, WORD);
  }

  lemma AcceptAccounts(s: State, r: Request, c: Control)
    requires Accounted(s) && s.current.None? && c.Operate?
    ensures Accounted(Pended(s, r, c))
  {
    hide Wrap;
    var t := Pended(s, r, c);
    var n := |s.accepted|;
    SumStep(n, s.completed + s.canceled + s.errors);
    NextWraps(n);
    forall k | 0 <= k < |t.accepted| ensures t.accepted[k].sequence == Wrap(1 + k) {
      if k < n { assert t.accepted[k] == s.accepted[k]; }
    }
  }

  lemma NextWraps(n: nat)
    ensures Next(Wrap(1 + n)) == Wrap(1 + (n + 1))
  {
    Arithmetic.RemainderOfSum(1 + n, 1, WORD);
  }

  lemma AcceptReplies(s: State, r: Request, c: Control)
    requires RepliesOk(s) && c.Operate? && !Logged(s.log, r)
    ensures RepliesOk(Pended(s, r, c))
  {
    hide Answers;
    var t := Pended(s, r, c);
    forall i | 0 <= i < |t.log| ensures ReplyOk(t.log[i], t.accepted) {
      assert ReplyOk(s.log[i], s.accepted);
    }
  }

  lemma AcceptKeeps(s: State, r: Request, c: Control)
    requires Inv(s) && s.outstanding.None? && !Logged(s.log, r) && c.Operate?
    ensures Inv(Pended(s, r, c))
  {
    hide RepliesOk, Accounted, LoggedOnce, Logged;
    AcceptReplies(s, r, c);
    AcceptAccounts(s, r, c);
  }

  // The pending request leaves current_request and is completed; one counter accounts for it.
  lemma CloseKeeps(s: State, t: State, status: Status, reply: Option<Reply>)
    requires Inv(s) && s.current.Some? && ReplyOk(Completion(s.current.value, status, reply), s.accepted)
    requires t.current.None? && t.outstanding == s.outstanding && t.log == s.log && t.accepted == s.accepted
    requires t.fault == s.fault && t.nextSequence == s.nextSequence
    requires Wrap(t.completed + t.canceled + t.errors) == Wrap(s.completed + s.canceled + s.errors + 1)
    ensures Inv(Complete(t, s.current.value, status, reply))
  {
    hide ReplyOk, LoggedOnce, Logged, Wrap;
    CompleteKeeps(t, s.current.value, status, reply);
  }

  lemma RefusedMarkKeeps(s: State, r: Request, c: Control)
    requires Inv(s) && s.outstanding.None? && !Logged(s.log, r) && c.Operate? && c.mark != Success
    ensures Inv(RefusedMark(Accept(Presented(s, r), r, c), r, c.mark))
  {
    hide RepliesOk, CompletionsOk, Wrap;
    AcceptKeeps(s, r, c);
    var t := Accept(Presented(s, r), r, c);
    NextIs(t.canceled, t.completed + t.errors);
    CloseKeeps(Pended(s, r, c), Uncurrent(t, c.mark), c.mark, None);
  }

  lemma OperateKeeps(s: State, r: Request, c: Control)
    requires Inv(s) && s.outstanding.None? && !Logged(s.log, r) && c.Operate?
    ensures Inv(DispatchStep(s, r, c))
  {
    hide Logged, RepliesOk, CompletionsOk, Accounted, Accept, RefusedMark;
    assert s.current.None?;
    if c.input != Success {
      ImmediateKeeps(s, r, c.input, None);
    } else if !c.headerValid {
      ImmediateKeeps(s, r, RevisionMismatch, None);
    } else if c.delay == 0 || c.delay > MAXIMUM_DELAY_MS {
      ImmediateKeeps(s, r, InvalidParameter, None);
    } else if !s.prepared || !s.inD0 {
      ImmediateKeeps(s, r, InvalidDeviceState, None);
    } else if c.mark == Success {
      AcceptKeeps(s, r, c);
    } else {
      RefusedMarkKeeps(s, r, c);
    }
  }

  lemma DispatchKeeps(s: State, r: Request, c: Control)
    requires Inv(s) && s.outstanding.None? && !Logged(s.log, r)
    ensures Inv(DispatchStep(s, r, c))
  {
    hide Inv, Logged;
    match c
    case Operate(_, _, _, _, _, _) => OperateKeeps(s, r, c);
    case Unknown => ImmediateKeeps(s, r, InvalidDeviceRequest, None);
    case Query(_, _, _, _) =>
      if c.input != Success {
        ImmediateKeeps(s, r, c.input, None);
      } else if !c.headerValid {
        ImmediateKeeps(s, r, RevisionMismatch, None);
      } else if c.output != Success {
        ImmediateKeeps(s, r, c.output, None);
      } else if !s.prepared || !s.inD0 {
        ImmediateKeeps(s, r, InvalidDeviceState, None);
      } else {
        ImmediateKeeps(s, r, Success, Some(Reply(0, c.session, 0)));
      }
  }

  lemma CancelKeeps(s: State, r: Request)
    requires Inv(s) && s.outstanding == Some(r)
    ensures Inv(CancelStep(s, r))
  {
    hide RepliesOk, CompletionsOk, Wrap;
    NextIs(s.canceled, s.completed + s.errors);
    CloseKeeps(s, s.(current := None, canceled := Next(s.canceled)), Cancelled, None);
  }

  lemma LastAnswered(s: State, c: Completion)
    requires Inv(s) && s.current == Some(c.request) && Answers(c, s.accepted[|s.accepted| - 1])
    ensures ReplyOk(c, s.accepted)
  {
  }

  lemma TimerKeeps(s: State, error: Option<Status>, output: Status)
    requires Inv(s)
    ensures Inv(TimerStep(s, error, output))
  {
    hide RepliesOk, CompletionsOk, Wrap;
    if s.current.Some? && !s.cancel.CallbackDue? {
      var t := s.(current := None, cancel := Unmarked);
      var r := s.current.value;
      if error.Some? {
        CloseKeeps(s, t.(errors := s.errors + 1), error.value, None);
      } else {
        NextIs(s.completed, s.canceled + s.errors);
        var u := t.(completed := Next(s.completed));
        if output != Success {
          CloseKeeps(s, u, output, None);
        } else {
          var reply := Some(Reply(Wrap(3 * s.value + 1), s.session, s.sequence));
          WrapIs(3 * s.value + 1);
          LastAnswered(s, Completion(r, Success, reply));
          CloseKeeps(s, u, Success, reply);
        }
      }
    }
  }

  lemma StepKeeps(s: State, e: Event)
    requires Inv(s) && Enabled(s, e)
    ensures Inv(Do(s, e))
  {
    hide Logged, RepliesOk, CompletionsOk, Accounted, DispatchStep, CancelStep, TimerStep;
    match e
    case Dispatch(r, c) => DispatchKeeps(s, r, c);
    case UserCancel => RelabelKeeps(s, SetCancel(s, CallbackDue));
    case CancelCallback(r) => CancelKeeps(s, r);
    case TimerCallback(error, output) => TimerKeeps(s, error, output);
    case Power(prepared, inD0) => RelabelKeeps(s, s.(prepared := prepared, inD0 := inD0));
  }

  lemma RelabelKeeps(s: State, t: State)
    requires Inv(s) && t == s.(prepared := t.prepared, inD0 := t.inD0, cancel := t.cancel)
    requires s.cancel.Unmarked? <==> t.cancel.Unmarked?
    ensures Inv(t)
  {
    hide Logged, LoggedOnce, AcceptedOnce, ReplyOk;
  }

  // ---------------------------------------------------------------------------------------------------------
  // Runs
  // ---------------------------------------------------------------------------------------------------------

  // Every event of the run is one the framework can deliver in the state it finds.
  predicate Run(s: State, run: seq<Event>)
    decreases |run|
  {
    run == [] || (Enabled(s, run[0]) && Run(Do(s, run[0]), run[1..]))
  }

  function After(s: State, run: seq<Event>): (s': State)
    decreases |run|
  {
    if run == [] then s else After(Do(s, run[0]), run[1..])
  }

  lemma {:induction false} RunKeeps(s: State, run: seq<Event>)
    requires Inv(s) && Run(s, run)
    ensures Inv(After(s, run))
    decreases |run|
  {
    if run != [] {
      StepKeeps(s, run[0]);
      RunKeeps(Do(s, run[0]), run[1..]);
    }
  }

  lemma InitialHolds(s: State)
    requires Initial(s)
    ensures Inv(s)
  {
  }

  /** No request is completed twice, and after every callback the accepted requests not completed are exactly the current one. */
  lemma CompletedOnce(s: State, run: seq<Event>)
    requires Initial(s) && Run(s, run)
    ensures var t := After(s, run);
            && !t.fault
            && (forall i, j | 0 <= i < j < |t.log| :: t.log[i].request != t.log[j].request)
            && (forall k | 0 <= k < |t.accepted| ::
                  Logged(t.log, t.accepted[k].request) <==> t.current != Some(t.accepted[k].request))
            && (t.current.Some? <==> t.outstanding.Some?)
  {
    InitialHolds(s);
    RunKeeps(s, run);
  }

  /** A request is only ever presented while no request is current, so DEVICE_BUSY is never the reason to complete it. */
  lemma NeverBusy(s: State, run: seq<Event>, r: Request, c: Control)
    requires Initial(s) && Run(s, run) && Enabled(After(s, run), Dispatch(r, c))
    ensures After(s, run).current.None?
  {
    InitialHolds(s);
    RunKeeps(s, run);
  }

  // Mark and unmark of a run return only success or CANCELLED.
  predicate OnlyRaces(run: seq<Event>)
  {
    forall i | 0 <= i < |run| ::
      && (run[i].Dispatch? && run[i].c.Operate? ==> run[i].c.mark == Success || run[i].c.mark == Cancelled)
      && (run[i].TimerCallback? ==> run[i].error.None?)
  }

  // Event `e` ends an operation because marking or unmarking its request failed for another reason than cancellation.
  predicate OtherFailure(s: State, e: Event)
  {
    match e
    case Dispatch(_, c) => s.current.None? && Valid(s, c) && c.mark != Success && c.mark != Cancelled
    case TimerCallback(error, _) => error.Some? && s.current.Some? && !s.cancel.CallbackDue?
    case _ => false
  }

  // A well-formed operation for a device that is ready.
  predicate Valid(s: State, c: Control)
  {
    c.Operate? && c.input == Success && c.headerValid && 0 < c.delay <= MAXIMUM_DELAY_MS && s.prepared && s.inD0
  }

  // How many operations of the run ended like that.
  function OtherFailures(s: State, run: seq<Event>): (n: nat)
    decreases |run|
  {
    if run == [] then 0 else (if OtherFailure(s, run[0]) then 1 else 0) + OtherFailures(Do(s, run[0]), run[1..])
  }

  lemma DispatchFailure(s: State, r: Request, c: Control)
    ensures DispatchStep(s, r, c).errors == s.errors + if OtherFailure(s, Dispatch(r, c)) then 1 else 0
  {
    hide Wrap;
    if c.Operate? {
      OperateFailure(Presented(s, r), r, c);
    }
  }

  lemma OperateFailure(s: State, r: Request, c: Control)
    requires c.Operate?
    ensures OperateStep(s, r, c).errors == s.errors + if OtherFailure(s, Dispatch(r, c)) then 1 else 0
  {
    hide Wrap;
  }

  lemma FailureCounted(s: State, e: Event)
    requires Enabled(s, e)
    ensures Do(s, e).errors == s.errors + if OtherFailure(s, e) then 1 else 0
  {
    hide Wrap, Logged, DispatchStep;
    if e.Dispatch? {
      DispatchFailure(s, e.r, e.c);
    }
  }

  lemma {:induction false} FailuresCounted(s: State, run: seq<Event>)
    requires Run(s, run)
    ensures After(s, run).errors == s.errors + OtherFailures(s, run)
    decreases |run|
  {
    hide Do, Enabled, OtherFailure;
    if run != [] {
      FailureCounted(s, run[0]);
      FailuresCounted(Do(s, run[0]), run[1..]);
    }
  }

  lemma {:induction false} OnlyRacesNoFailures(s: State, run: seq<Event>)
    requires OnlyRaces(run)
    ensures OtherFailures(s, run) == 0
    decreases |run|
  {
    hide Do;
    if run != [] {
      assert !OtherFailure(s, run[0]);
      OnlyRacesNoFailures(Do(s, run[0]), run[1..]);
    }
  }

  // Sequence numbers issued, those of operations completed, cancelled or pending, modulo 2^32.
  predicate Balanced(s: State) { Wrap(|s.accepted|) == Wrap(s.completed + s.canceled + Pending(s)) }

  /**
   Sequence numbers issued are those completed, cancelled or pending, modulo 2^32, exactly when the number of
   operations of the run whose marking or unmarking failed in another way vanishes modulo 2^32; in particular when
   mark and unmark return only success or CANCELLED.
   */
  lemma SequencesAccountedFor(s: State, run: seq<Event>)
    requires Initial(s) && Run(s, run)
    ensures var t := After(s, run);
            && t.nextSequence == Wrap(1 + |t.accepted|)
            && (Balanced(t) <==> Wrap(OtherFailures(s, run)) == 0)
            && (OnlyRaces(run) ==> OtherFailures(s, run) == 0)
  {
    hide After, Run, OtherFailures, OnlyRaces;
    InitialHolds(s);
    RunKeeps(s, run);
    FailuresCounted(s, run);
    if OnlyRaces(run) {
      OnlyRacesNoFailures(s, run);
    }
    var t := After(s, run);
    Arithmetic.RemainderKept(t.completed + t.canceled + Pending(t), t.errors, WORD);
  }

  /** A run that loses one: the request could not be marked cancelable for lack of resources. */
  lemma UncountedFailure(s: State) returns (run: seq<Event>)
    requires Initial(s)
    ensures Run(s, run) && !Balanced(After(s, run))
  {
    var e := Dispatch(0, Operate(Success, true, 0, 1, 0, InsufficientResources));
    run := [Power(true, true), e];
    var t := Do(s, run[0]);
    var u := Do(t, e);
    assert run[1..] == [e] && [e][1..] == [];
    assert Run(u, []) && After(u, []) == u;
    assert Run(t, [e]) && After(t, [e]) == u;
    assert Run(s, run) && After(s, run) == u;
  }

  /**
   The k-th accepted operation has sequence number k + 1, and every reply to an accepted request carries that request's
   own value, session and sequence.
   */
  lemma RepliesAnswerTheirRequest(s: State, run: seq<Event>, i: nat, k: nat)
    requires Initial(s) && Run(s, run)
    requires var t := After(s, run);
             i < |t.log| && k < |t.accepted| && t.log[i].reply.Some? && t.log[i].request == t.accepted[k].request
    ensures var t := After(s, run); t.accepted[k].sequence == Wrap(1 + k) && Answers(t.log[i], t.accepted[k])
  {
    InitialHolds(s);
    RunKeeps(s, run);
  }

  // A condition a request must meet, and the status it is completed with if it does not.
  datatype Check = Check(passes: bool, status: Status)

  // The conditions on each kind of request, in the order in which they are examined.
  function Checks(s: State, c: Control): (cs: seq<Check>)
  {
    var ready := Check(s.prepared && s.inD0, InvalidDeviceState);
    match c
    case Query(input, headerValid, output, _) =>
      [Check(input == Success, input), Check(headerValid, RevisionMismatch), Check(output == Success, output), ready]
    case Operate(input, headerValid, _, delay, _, _) =>
      [Check(input == Success, input), Check(headerValid, RevisionMismatch), Check(1 <= delay <= 30000, InvalidParameter), ready]
    case Unknown => [Check(false, InvalidDeviceRequest)]
  }

  function FirstFailure(cs: seq<Check>): (f: Option<Status>)
  {
    if cs == [] then None else if !cs[0].passes then Some(cs[0].status) else FirstFailure(cs[1..])
  }

  lemma FirstOfFour(a: Check, b: Check, c: Check, d: Check)
    ensures FirstFailure([a, b, c, d]) ==
            if !a.passes then Some(a.status) else if !b.passes then Some(b.status)
            else if !c.passes then Some(c.status) else if !d.passes then Some(d.status) else None
  {
    assert [a, b, c, d][1..] == [b, c, d] && [b, c, d][1..] == [c, d] && [c, d][1..] == [d] && [d][1..] == [];
    assert FirstFailure([d]) == if !d.passes then Some(d.status) else None;
    assert FirstFailure([c, d]) == if !c.passes then Some(c.status) else FirstFailure([d]);
    assert FirstFailure([b, c, d]) == if !b.passes then Some(b.status) else FirstFailure([c, d]);
  }

  // How a request that does not stay pending is completed.
  function Answered(s: State, r: Request, c: Control): (a: Completion)
  {
    var failure := FirstFailure(Checks(s, c));
    if failure.Some? then Completion(r, failure.value, None)
    else if c.Query? then Completion(r, Success, Some(Reply(0, c.session, 0)))
    else if c.Operate? then Completion(r, c.mark, None)
    else Completion(r, InvalidDeviceRequest, None)
  }

  // What presenting a request leads to, when there is no current one.
  predicate Presents(s: State, t: State, r: Request, c: Control)
  {
    var valid := c.Operate? && FirstFailure(Checks(s, c)).None?;
    && t.accepted == s.accepted + (if valid then [Operation(r, c.value, c.session, s.nextSequence)] else [])
    && (t.current == Some(r) <==> valid && c.mark == Success)
    && t.log == s.log + (if t.current == Some(r) then [] else [Answered(s, r, c)])
    && t.completed == s.completed && t.canceled == (if valid && c.mark == Cancelled then Next(s.canceled) else s.canceled)
  }

  lemma RefusedExactly(s: State, t: State, r: Request, c: Control)
    requires s.current.None? && (c.Query? || FirstFailure(Checks(s, c)).Some?)
    requires var a := Answered(s, r, c); t == Complete(Presented(s, r), r, a.status, a.reply)
    ensures Presents(s, t, r, c)
  {
    hide FirstFailure, Checks, Next;
    assert s.accepted + [] == s.accepted;
  }

  lemma StartExactly(s: State, r: Request, c: Control)
    requires s.current.None? && c.Operate? && FirstFailure(Checks(s, c)).None?
    ensures Presents(s, StartStep(Presented(s, r), r, c), r, c)
  {
    hide Wrap, FirstFailure, Checks;
    assert s.log + [] == s.log;
  }

  lemma OperateExactly(s: State, r: Request, c: Control)
    requires s.current.None? && c.Operate?
    ensures Presents(s, OperateStep(Presented(s, r), r, c), r, c)
  {
    hide Presents, Complete, StartStep, FirstFailure;
    var cs := Checks(s, c);
    FirstOfFour(cs[0], cs[1], cs[2], cs[3]);
    if FirstFailure(cs).Some? {
      RefusedExactly(s, OperateStep(Presented(s, r), r, c), r, c);
    } else {
      StartExactly(s, r, c);
    }
  }

  lemma QueryExactly(s: State, r: Request, c: Control)
    requires c.Query?
    ensures var a := Answered(s, r, c); QueryStep(s, r, c) == Complete(s, r, a.status, a.reply)
  {
    hide Complete, FirstFailure;
    var cs := Checks(s, c);
    FirstOfFour(cs[0], cs[1], cs[2], cs[3]);
  }

  lemma PresentedExactly(s: State, r: Request, c: Control)
    requires s.current.None?
    ensures Presents(s, DispatchStep(s, r, c), r, c)
  {
    hide Presents, Complete, QueryStep, OperateStep;
    match c
    case Operate(_, _, _, _, _, _) => OperateExactly(s, r, c);
    case Unknown => RefusedExactly(s, DispatchStep(s, r, c), r, c);
    case Query(_, _, _, _) =>
      hide Answered;
      QueryExactly(Presented(s, r), r, c);
      SameAnswer(s, r, c);
      RefusedExactly(s, DispatchStep(s, r, c), r, c);
  }

  lemma SameAnswer(s: State, r: Request, c: Control)
    ensures Answered(Presented(s, r), r, c) == Answered(s, r, c)
  {
    hide FirstFailure;
  }

  /**
   A request is accepted exactly when it is a valid operation and the device is ready, and stays pending exactly when it
   could also be marked cancelable. Any other request is completed, once, before its callback returns: with the status
   of the first check it fails, with the reply to a query, or with the reason it could not be marked.
   */
  lemma AcceptedExactly(s0: State, run: seq<Event>, r: Request, c: Control)
    requires Initial(s0) && Run(s0, run) && Enabled(After(s0, run), Dispatch(r, c))
    ensures Presents(After(s0, run), Do(After(s0, run), Dispatch(r, c)), r, c)
  {
    hide After, Run, Presents, DispatchStep;
    NeverBusy(s0, run, r, c);
    PresentedExactly(After(s0, run), r, c);
  }

  /** Once cancellation of the pending request has begun, only its cancel callback completes it, with CANCELLED. */
  lemma CancellationWins(s0: State, run: seq<Event>, e: Event)
    requires Initial(s0) && Run(s0, run) && Enabled(After(s0, run), e) && After(s0, run).cancel.CallbackDue?
    ensures var s, t := After(s0, run), Do(After(s0, run), e);
            && s.current.Some?
            && (if e.CancelCallback? then
                  && t.current.None? && t.log == s.log + [Completion(s.current.value, Cancelled, None)]
                  && t.canceled == Next(s.canceled) && t.completed == s.completed
                else t.current == s.current && t.log == s.log && t.cancel.CallbackDue?)
  {
    hide Wrap;
    InitialHolds(s0);
    RunKeeps(s0, run);
  }

  // What a timer callback leads to.
  predicate Fires(s: State, t: State, error: Option<Status>, output: Status)
  {
    if s.current.None? || s.cancel.CallbackDue? then t == s
    else
      && t.current.None? && t.outstanding.None? && t.accepted == s.accepted && t.canceled == s.canceled
      && t.completed == (if error.Some? then s.completed else Next(s.completed))
      && |t.log| == |s.log| + 1 && t.log[..|s.log|] == s.log
      && var c := t.log[|s.log|];
      if error.Some? then c == Completion(s.current.value, error.value, None)
      else if output != Success then c == Completion(s.current.value, output, None)
      else s.accepted != [] && c.request == s.current.value && Answers(c, s.accepted[|s.accepted| - 1])
  }

  /**
   A timer callback completes the pending request, once, and only if its cancellation has not begun: with the failure
   of unmarking it, else with the failure of its output, else successfully with the reply to its own operation. At any
   other time it changes nothing.
   */
  lemma TimerExactly(s0: State, run: seq<Event>, error: Option<Status>, output: Status)
    requires Initial(s0) && Run(s0, run) && Enabled(After(s0, run), TimerCallback(error, output))
    ensures Fires(After(s0, run), Do(After(s0, run), TimerCallback(error, output)), error, output)
  {
    hide After, Run;
    InitialHolds(s0);
    RunKeeps(s0, run);
    FiresExactly(After(s0, run), error, output);
  }

  lemma FiresExactly(s: State, error: Option<Status>, output: Status)
    requires Inv(s)
    ensures Fires(s, TimerStep(s, error, output), error, output)
  {
    hide Wrap, CompletionsOk, RepliesOk, Accounted;
    WrapIs(3 * s.value + 1);
  }

  lemma WrapIs(n: nat)
    ensures Wrap(n) == n % 0x1_0000_0000
  {
  }

  lemma AnswersRequest(s: State, r: Request, c: Control)
    ensures Answered(s, r, c).request == r
  {
    hide FirstFailure, Checks;
  }
}
