/** The callbacks of the KMDF reference driver as they update queue_state and device_state in place. */
module KmdfQueue {
  import opened Options
  import opened KmdfOperation

  class Queue {
    // queue_state
    var currentRequest: Option<Request>
    var value: nat
    var sessionId: nat
    var sequence: nat
    // device_state
    var nextSequence: nat
    var completedRequests: nat
    var canceledRequests: nat
    var hardwarePrepared: bool
    var inD0: bool
    // The framework's side of the queue and the history of the run.
    var outstanding: Option<Request>
    var cancel: Cancel
    ghost var log: seq<Completion>
    ghost var accepted: seq<Operation>
    ghost var errors: nat
    ghost var fault: bool

    ghost function View(): (s: State)
      reads this
    {
      State(currentRequest, value, sessionId, sequence, nextSequence, completedRequests, canceledRequests,
            hardwarePrepared, inD0, outstanding, cancel, log, accepted, errors, fault)
    }

    constructor ()
      ensures Initial(View()) && Inv(View())
    {
      currentRequest, value, sessionId, sequence := None, 0, 0, 0;
      nextSequence, completedRequests, canceledRequests := 1, 0, 0;
      hardwarePrepared, inD0 := false, false;
      outstanding, cancel := None, Unmarked;
      log, accepted, errors, fault := [], [], 0, false;
    }

    method CompleteRequest(request: Request, status: Status, ghost reply: Option<Reply>)
      modifies this
      ensures View() == Complete(old(View()), request, status, reply)
    {
      fault := fault || outstanding != Some(request);
      log := log + [Completion(request, status, reply)];
      outstanding, cancel := None, Unmarked;
    }

    // WdfRequestUnmarkCancelable: CANCELLED when the cancel callback owns the request.
    method Unmark(error: Option<Status>) returns (status: Status)
      requires error.Some? ==> error.value != Success && error.value != Cancelled
      modifies this`cancel, this`errors
      ensures old(cancel).CallbackDue? ==> status == Cancelled && View() == old(View())
      ensures !old(cancel).CallbackDue? ==>
                && status == (if error.Some? then error.value else Success)
                && View() == old(View()).(cancel := Unmarked, errors := old(errors) + if error.Some? then 1 else 0)
    {
      if cancel.CallbackDue? {
        return Cancelled;
      }
      cancel := Unmarked;
      if error.Some? {
        errors := errors + 1;
        return error.value;
      }
      return Success;
    }

    // WdfRequestMarkCancelableEx with the outcome the framework decided on.
    method Mark(outcome: Status) returns (status: Status)
      modifies this`cancel, this`errors
      ensures status == outcome
      ensures View() == old(View()).(cancel := if outcome == Success then Marked else old(cancel),
                                     errors := old(errors) + if outcome == Success || outcome == Cancelled then 0 else 1)
    {
      if outcome == Success {
        cancel := Marked;
      } else if outcome != Cancelled {
        errors := errors + 1;
      }
      return outcome;
    }

    method CompleteOperation(request: Request, output: Status)
      modifies this
      ensures View() == FinishStep(old(View()), request, output)
      ensures completedRequests == Next(old(completedRequests)) && accepted == old(accepted)
      ensures log == old(log) + [if output == Success
                                 then Completion(request, Success, Some(Reply(Wrap(3 * value + 1), sessionId, sequence)))
                                 else Completion(request, output, None)]
    {
      completedRequests := Next(completedRequests);
      if output != Success {
        CompleteRequest(request, output, None);
        return;
      }
      var result := Wrap(3 * value + 1);
      CompleteRequest(request, Success, Some(Reply(result, sessionId, sequence)));
    }

    method CancelRequest(request: Request)
      requires Inv(View()) && Enabled(View(), CancelCallback(request))
      modifies this
      ensures View() == Do(old(View()), CancelCallback(request)) && Inv(View())
      ensures currentRequest.None? && log == old(log) + [Completion(request, Cancelled, None)]
      ensures canceledRequests == Next(old(canceledRequests)) && completedRequests == old(completedRequests)
    {
      ghost var before := View();
      if currentRequest == Some(request) {
        currentRequest := None;
      }
      canceledRequests := Next(canceledRequests);
      CompleteRequest(request, Cancelled, None);
      StepKeeps(before, CancelCallback(request));
    }

    method TimerExpired(error: Option<Status>, output: Status)
      requires Inv(View()) && (error.Some? ==> error.value != Success && error.value != Cancelled)
      modifies this
      ensures View() == Do(old(View()), TimerCallback(error, output)) && Inv(View())
      ensures Fires(old(View()), View(), error, output)
    {
      hide Inv, Fires;
      ghost var before := View();
      FiresExactly(before, error, output);
      StepKeeps(before, TimerCallback(error, output));
      if currentRequest.None? {
        return;
      }
      var request := currentRequest.value;
      var status := Unmark(error);
      if status == Cancelled {
        return;
      }
      currentRequest := None;
      if status != Success {
        CompleteRequest(request, status, None);
        return;
      }
      CompleteOperation(request, output);
    }

    method CompleteQuery(request: Request, control: Control)
      requires control.Query?
      modifies this
      ensures View() == QueryStep(old(View()), request, control)
      ensures accepted == old(accepted) && currentRequest == old(currentRequest)
      ensures log == old(log) + [Answered(old(View()), request, control)]
    {
      hide Answered;
      AnswersRequest(View(), request, control);
      QueryExactly(View(), request, control);
      if control.input != Success {
        CompleteRequest(request, control.input, None);
        return;
      }
      if !control.headerValid {
        CompleteRequest(request, RevisionMismatch, None);
        return;
      }
      if control.output != Success {
        CompleteRequest(request, control.output, None);
        return;
      }
      if !hardwarePrepared || !inD0 {
        CompleteRequest(request, InvalidDeviceState, None);
        return;
      }
      CompleteRequest(request, Success, Some(Reply(0, control.session, 0)));
    }

    // The part of begin_operation after its checks.
    method StartOperation(request: Request, control: Control)
      requires control.Operate?
      modifies this
      ensures View() == StartStep(old(View()), request, control)
    {
      hide Accept, RefusedMark, SetCancel;
      AcceptRequest(request, control);
      MarkAccepted(request, control.mark);
    }

    method AcceptRequest(request: Request, control: Control)
      requires control.Operate?
      modifies this
      ensures View() == Accept(old(View()), request, control)
    {
      hide Next;
      currentRequest, value, sessionId := Some(request), control.value, control.session;
      NumberRequest();
      accepted := accepted + [Operation(request, control.value, control.session, old(nextSequence))];
    }

    // next_sequence.fetch_add(1).
    method NumberRequest()
      modifies this`sequence, this`nextSequence
      ensures sequence == old(nextSequence) && nextSequence == Next(old(nextSequence))
    {
      sequence, nextSequence := nextSequence, Next(nextSequence);
    }

    // Mark the request that was just accepted, and give it up when that fails.
    method MarkAccepted(request: Request, mark: Status)
      modifies this
      ensures View() == if mark == Success then SetCancel(old(View()), Marked) else RefusedMark(old(View()), request, mark)
    {
      hide Complete, Next;
      var status := Mark(mark);
      if status != Success {
        currentRequest := None;
        if status == Cancelled {
          canceledRequests := Next(canceledRequests);
        }
        CompleteRequest(request, status, None);
      }
    }

    method BeginOperation(request: Request, control: Control)
      requires control.Operate?
      modifies this
      ensures View() == OperateStep(old(View()), request, control)
      ensures old(currentRequest).None? && old(outstanding) == Some(request) && old(cancel).Unmarked? ==>
                Presents(old(View()), View(), request, control)
    {
      hide Complete, StartStep, Presents;
      if currentRequest.None? && outstanding == Some(request) && cancel.Unmarked? {
        assert Presented(View(), request) == View();
        OperateExactly(View(), request, control);
      }
      if control.input != Success {
        CompleteRequest(request, control.input, None);
        return;
      }
      if !control.headerValid {
        CompleteRequest(request, RevisionMismatch, None);
        return;
      }
      if control.delay == 0 || control.delay > MAXIMUM_DELAY_MS {
        CompleteRequest(request, InvalidParameter, None);
        return;
      }
      if !hardwarePrepared || !inD0 {
        CompleteRequest(request, InvalidDeviceState, None);
        return;
      }
      if currentRequest.Some? {
        CompleteRequest(request, DeviceBusy, None);
        return;
      }
      StartOperation(request, control);
    }

    method DeviceControl(request: Request, control: Control)
      requires Inv(View()) && Enabled(View(), Dispatch(request, control))
      modifies this
      ensures View() == Do(old(View()), Dispatch(request, control)) && Inv(View())
    {
      hide Inv, QueryStep, OperateStep;
      ghost var before := View();
      StepKeeps(before, Dispatch(request, control));
      outstanding, cancel := Some(request), Unmarked;
      match control
      case Query(_, _, _, _) => CompleteQuery(request, control);
      case Operate(_, _, _, _, _, _) => BeginOperation(request, control);
      case Unknown => CompleteRequest(request, InvalidDeviceRequest, None);
    }
  }
}
