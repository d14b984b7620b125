/**
 The Lua engine's call queues. Every state has one thread that takes calls from the front of its queue, runs
 them and makes each result ready; results of timer calls are collected in a list that is checked for errors.
 */
module LuaEngine {
  import opened Freeze
  import opened FreezeHeap
  import opened LuaValues
  import opened Wrappers

  const FN_NOT_FOUND := "BEAMMP_FN_NOT_FOUND"
  const NOT_SERIALIZABLE := "Call was successful, but result could not be serialized"

  class LuaResult {
    var ready: bool
    var error: bool
    var errorMessage: string
    var value: Frozen
    var stateId: string
    const function_: string
    /** How often the result has been made ready. */
    ghost var marks: nat

    constructor (stateId: string, function_: string)
      ensures !ready && marks == 0 && this.stateId == stateId && this.function_ == function_
    {
      ready, error, errorMessage, value := false, false, "", FNil;
      this.stateId, this.function_ := stateId, function_;
      marks := 0;
    }

    method MarkAsReady()
      modifies this`ready, this`marks
      ensures ready && marks == old(marks) + 1
    {
      ready := true;
      marks := marks + 1;
    }

    /** Not ok is the exception of a value that cannot be frozen; the result is then not made ready. */
    method MarkReadySuccess(h: Heap, v: Value) returns (ok: bool)
      requires Closed(h) && Allocated(h, v)
      modifies this`error, this`value, this`ready, this`marks
      ensures ok <==> FreezeValue(h, v, 0).Some?
      ensures !error
      ensures ok ==> ready && value == FreezeValue(h, v, 0).value && marks == old(marks) + 1
      ensures !ok ==> ready == old(ready) && marks == old(marks) && value == old(value)
    {
      error := false;
      var frozen := FreezeRecursive(h, v, 0);
      if frozen.None? {
        return false;
      }
      value := frozen.value;
      MarkAsReady();
      return true;
    }

    method MarkReadyError(message: string)
      modifies this`error, this`errorMessage, this`ready, this`marks
      ensures ready && error && errorMessage == message && marks == old(marks) + 1
    {
      error := true;
      errorMessage := message;
      MarkAsReady();
    }
  }

  /** Whether a handler objects to a spawn or an edit: one that ended without an error and returned an int but zero. */
  method AnyObjects(futures: seq<LuaResult>) returns (veto: bool)
    ensures veto <==> exists i ::
      0 <= i < |futures| && !futures[i].error && futures[i].value.FInt? && futures[i].value.i != 0
  {
    veto := false;
    for i := 0 to |futures|
      invariant veto <==> exists j :: 0 <= j < i && Objects(futures[j])
    {
      if !futures[i].error && futures[i].value.FInt? && futures[i].value.i != 0 {
        veto := true;
      }
    }
    assert forall j | 0 <= j < |futures| :: Objects(futures[j]) <==>
      !futures[j].error && futures[j].value.FInt? && futures[j].value.i != 0;
  }

  predicate Objects(r: LuaResult)
    reads r
  {
    !r.error && r.value.FInt? && r.value.i != 0
  }

  datatype Strategy = BestEffort | Precise

  datatype QueuedFunction = QueuedFunction(
    functionName: string, result: LuaResult, args: seq<LuaValue>, eventName: string)

  /** How a call can end: no such function, a Lua error, or a value. */
  datatype CallOutcome = NotAFunction | Failed(message: string) | Returned(h: Heap, v: Value)

  ghost predicate ValidOutcome(outcome: CallOutcome) {
    outcome.Returned? ==> Closed(outcome.h) && Allocated(outcome.h, outcome.v)
  }

  /** Whether the call came to an end whose result another thread can read. */
  ghost predicate Readable(outcome: CallOutcome) {
    outcome.Returned? && ValidOutcome(outcome) && FreezeValue(outcome.h, outcome.v, 0).Some?
  }

  /** What a call that did not end readably is reported as; a missing function is later passed over in silence. */
  function ErrorOf(outcome: CallOutcome): string {
    match outcome
    case NotAFunction => "BEAMMP_FN_NOT_FOUND"
    case Failed(message) => message
    case Returned(_, _) => "Call was successful, but result could not be serialized"
  }

  predicate Pending(queue: seq<QueuedFunction>, eventName: string) {
    exists i :: 0 <= i < |queue| && queue[i].eventName == eventName
  }

  /** The calls of the first handlers, one for each result. */
  function Calls(
    handlers: seq<string>, args: seq<LuaValue>, results: seq<LuaResult>, eventName: string): seq<QueuedFunction>
    requires |results| <= |handlers|
  {
    seq(|results|, i requires 0 <= i < |results| => QueuedFunction(handlers[i], results[i], args, eventName))
  }

  lemma CallsGrow(
    handlers: seq<string>, args: seq<LuaValue>, results: seq<LuaResult>, result: LuaResult, eventName: string)
    requires |results| < |handlers|
    ensures Calls(handlers, args, results + [result], eventName)
      == Calls(handlers, args, results, eventName) + [QueuedFunction(handlers[|results|], result, args, eventName)]
  {
  }

  class StateThread {
    const stateId: string
    var queue: seq<QueuedFunction>
    var running: Option<QueuedFunction>
    /** All calls ever enqueued with their results, and all calls that have been run, in order. */
    ghost var enqueued: seq<QueuedFunction>
    ghost var results: seq<LuaResult>
    ghost var executed: seq<QueuedFunction>

    constructor (stateId: string)
      ensures Valid() && queue == [] && running == None && enqueued == [] && executed == []
      ensures this.stateId == stateId
    {
      this.stateId := stateId;
      queue, running := [], None;
      enqueued, results, executed := [], [], [];
    }

    ghost function Current(): seq<QueuedFunction>
      reads this`running
    {
      if running.Some? then [running.value] else []
    }

    /** Nothing is lost, duplicated or reordered; a result is ready once its call has been run, and once only. */
    ghost predicate Valid()
      reads this, results
    {
      && executed + Current() + queue == enqueued
      && |results| == |enqueued|
      && (forall i | 0 <= i < |results| :: enqueued[i].result == results[i])
      && (forall i, j | 0 <= i < j < |results| :: results[i] != results[j])
      && (forall i | 0 <= i < |executed| :: results[i].ready && results[i].marks == 1)
      && (forall i | |executed| <= i < |results| :: !results[i].ready && results[i].marks == 0)
    }

    /** Appends the call of a fresh result. */
    method Push(functionName: string, args: seq<LuaValue>, eventName: string) returns (result: LuaResult)
      requires Valid()
      modifies this`queue, this`enqueued, this`results
      ensures Valid() && fresh(result) && !result.ready
      ensures queue == old(queue) + [QueuedFunction(functionName, result, args, eventName)]
      ensures enqueued == old(enqueued) + [QueuedFunction(functionName, result, args, eventName)]
    {
      result := new LuaResult(stateId, functionName);
      var f := QueuedFunction(functionName, result, args, eventName);
      assert executed + Current() + (queue + [f]) == enqueued + [f];
      queue := queue + [f];
      enqueued, results := enqueued + [f], results + [result];
    }

    method EnqueueFunctionCall(functionName: string, args: seq<LuaValue>, eventName: string) returns (result: LuaResult)
      requires Valid()
      modifies this`queue, this`enqueued, this`results
      ensures Valid() && fresh(result) && !result.ready
      ensures queue == old(queue) + [QueuedFunction(functionName, result, args, eventName)]
      ensures enqueued == old(enqueued) + [QueuedFunction(functionName, result, args, eventName)]
    {
      result := Push(functionName, args, eventName);
    }

    /** A best-effort call is refused while any call for the same event is waiting. */
    method EnqueueFunctionCallFromCustomEvent(
      functionName: string, args: seq<LuaValue>, eventName: string, strategy: Strategy)
      returns (result: Option<LuaResult>)
      requires Valid()
      modifies this`queue, this`enqueued, this`results
      ensures Valid()
      ensures result.None? <==> strategy.BestEffort? && Pending(old(queue), eventName)
      ensures result.None? ==> queue == old(queue) && enqueued == old(enqueued)
      ensures result.Some? ==>
        var f := QueuedFunction(functionName, result.value, args, eventName);
        fresh(result.value) && !result.value.ready && queue == old(queue) + [f] && enqueued == old(enqueued) + [f]
    {
      if strategy.BestEffort? {
        var i := 0;
        while i < |queue| && queue[i].eventName != eventName
          invariant 0 <= i <= |queue|
          invariant forall j | 0 <= j < i :: queue[j].eventName != eventName
        {
          i := i + 1;
        }
        if i < |queue| {
          return None;
        }
      }
      var r := Push(functionName, args, eventName);
      return Some(r);
    }

    /** An event for this state: every handler is called with the same arguments, in order. */
    method TriggerLocalEvent(handlers: seq<string>, args: seq<LuaValue>, eventName: string)
      returns (triggered: seq<LuaResult>)
      requires Valid()
      modifies this`queue, this`enqueued, this`results
      ensures Valid() && fresh(triggered) && |triggered| == |handlers|
      ensures queue == old(queue) + Calls(handlers, args, triggered, eventName)
      ensures enqueued == old(enqueued) + Calls(handlers, args, triggered, eventName)
    {
      triggered := [];
      for i := 0 to |handlers|
        invariant Valid() && fresh(triggered) && |triggered| == i
        invariant queue == old(queue) + Calls(handlers, args, triggered, eventName)
        invariant enqueued == old(enqueued) + Calls(handlers, args, triggered, eventName)
      {
        var result := EnqueueFunctionCall(handlers[i], args, eventName);
        CallsGrow(handlers, args, triggered, result, eventName);
        triggered := triggered + [result];
      }
    }

    /** The state's thread takes the first call, if there is one. */
    method TakeCall()
      requires Valid() && running.None?
      modifies this`queue, this`running
      ensures Valid()
      ensures if old(queue) == [] then queue == [] && running.None?
              else running == Some(old(queue)[0]) && queue == old(queue)[1..]
    {
      if queue != [] {
        assert executed + [] + queue == executed + [queue[0]] + queue[1..];
        running := Some(queue[0]);
        queue := queue[1..];
      }
    }

    /** The call has ended: its result becomes ready, without an error only if its value was frozen. */
    method FinishCall(outcome: CallOutcome)
      requires Valid() && running.Some? && ValidOutcome(outcome)
      modifies this`running, this`executed, running.value.result
      ensures Valid() && running.None?
      ensures executed == old(executed) + [old(running).value]
      ensures old(running).value.result.ready
      ensures !old(running).value.result.error <==> Readable(outcome)
      ensures old(running).value.result.stateId == stateId
      ensures !Readable(outcome) ==> old(running).value.result.errorMessage == ErrorOf(outcome)
      ensures Readable(outcome) ==> old(running).value.result.value == FreezeValue(outcome.h, outcome.v, 0).value
    {
      var f := running.value;
      assert enqueued[|executed|] == f;
      f.result.stateId := stateId;
      match outcome {
        case NotAFunction =>
          f.result.MarkReadyError(FN_NOT_FOUND);
        case Failed(message) =>
          f.result.MarkReadyError(message);
        case Returned(h, v) =>
          var ok := f.result.MarkReadySuccess(h, v);
          if !ok {
            f.result.MarkReadyError(NOT_SERIALIZABLE);
          }
      }
      running := None;
      executed := executed + [f];
      assert executed + [] + queue == enqueued;
    }
  }

  /*******************************************************************************
   *  Timers and the list of results to check
   *******************************************************************************/

  datatype TimedEvent = TimedEvent(
    duration: int, lastCompletion: int, eventName: string, stateId: string, strategy: Strategy)

  predicate Expired(t: TimedEvent, now: int) {
    now - t.lastCompletion >= t.duration
  }

  ghost function Unready(results: seq<LuaResult>): seq<LuaResult>
    reads results
    decreases |results|
  {
    if results == [] then []
    else Unready(results[..|results| - 1]) + if results[|results| - 1].ready then [] else [results[|results| - 1]]
  }

  lemma {:induction false} UnreadyExactly(results: seq<LuaResult>, r: LuaResult)
    ensures r in Unready(results) <==> r in results && !r.ready
    decreases |results|
  {
    if results != [] {
      var n := |results| - 1;
      UnreadyExactly(results[..n], r);
      assert results == results[..n] + [results[n]];
    }
  }

  function Remaining(timers: seq<TimedEvent>, eventName: string, stateId: string): seq<TimedEvent> {
    if timers == [] then []
    else
      var rest := Remaining(timers[1..], eventName, stateId);
      if timers[0].eventName == eventName && timers[0].stateId == stateId then rest else [timers[0]] + rest
  }

  lemma {:induction false} RemainingErase(timers: seq<TimedEvent>, i: nat, eventName: string, stateId: string)
    requires i < |timers| && timers[i].eventName == eventName && timers[i].stateId == stateId
    ensures Remaining(timers[..i] + timers[i + 1..], eventName, stateId) == Remaining(timers, eventName, stateId)
  {
    if i == 0 {
      assert timers[..0] + timers[1..] == timers[1..];
    } else {
      RemainingErase(timers[1..], i - 1, eventName, stateId);
      assert (timers[..i] + timers[i + 1..])[1..] == timers[1..][..i - 1] + timers[1..][i..];
    }
  }

  lemma {:induction false} RemainingAll(timers: seq<TimedEvent>, eventName: string, stateId: string)
    requires forall i | 0 <= i < |timers| :: !(timers[i].eventName == eventName && timers[i].stateId == stateId)
    ensures Remaining(timers, eventName, stateId) == timers
  {
    if timers != [] {
      RemainingAll(timers[1..], eventName, stateId);
    }
  }

  lemma PendingIffOffered(queue: seq<QueuedFunction>, handlers: seq<string>, results: seq<LuaResult>, eventName: string)
    requires |results| <= |handlers|
    ensures Pending(queue + Calls(handlers, [], results, eventName), eventName)
      <==> results != [] || Pending(queue, eventName)
  {
    var calls := Calls(handlers, [], results, eventName);
    if results != [] {
      assert (queue + calls)[|queue|].eventName == eventName;
    } else {
      assert queue + calls == queue;
    }
  }

  lemma {:induction false} RemainingExactly(timers: seq<TimedEvent>, t: TimedEvent, eventName: string, stateId: string)
    ensures t in Remaining(timers, eventName, stateId)
      <==> t in timers && !(t.eventName == eventName && t.stateId == stateId)
  {
    if timers != [] {
      RemainingExactly(timers[1..], t, eventName, stateId);
    }
  }

  class Engine {
    var timers: seq<TimedEvent>
    var resultsToCheck: seq<LuaResult>

    constructor ()
      ensures timers == [] && resultsToCheck == []
    {
      timers, resultsToCheck := [], [];
    }

    /** Drops the results that are ready, and no others; what is left keeps its order. */
    method CheckResults()
      modifies this`resultsToCheck
      ensures resultsToCheck == Unready(old(resultsToCheck))
    {
      var kept: seq<LuaResult> := [];
      for i := 0 to |resultsToCheck|
        invariant resultsToCheck == old(resultsToCheck)
        invariant kept == Unready(resultsToCheck[..i])
      {
        assert resultsToCheck[..i + 1][..i] == resultsToCheck[..i];
        if !resultsToCheck[i].ready {
          kept := kept + [resultsToCheck[i]];
        }
      }
      assert resultsToCheck[..|resultsToCheck|] == resultsToCheck;
      resultsToCheck := kept;
    }

    method CancelEventTimers(eventName: string, stateId: string)
      modifies this`timers
      ensures timers == Remaining(old(timers), eventName, stateId)
    {
      while true
        invariant Remaining(timers, eventName, stateId) == Remaining(old(timers), eventName, stateId)
        decreases |timers|
      {
        var i := 0;
        while i < |timers| && !(timers[i].eventName == eventName && timers[i].stateId == stateId)
          invariant 0 <= i <= |timers|
          invariant forall j | 0 <= j < i :: !(timers[j].eventName == eventName && timers[j].stateId == stateId)
        {
          i := i + 1;
        }
        if i == |timers| {
          RemainingAll(timers, eventName, stateId);
          break;
        }
        RemainingErase(timers, i, eventName, stateId);
        timers := timers[..i] + timers[i + 1..];
      }
    }

    /**
     One expired timer, its state's thread not taking calls meanwhile. Offers the handlers in turn until one is
     refused, in which case the timer is put back to its last completion.
     */
    method FireTimer(t: nat, state: StateThread, handlers: seq<string>, now: int) returns (accepted: seq<LuaResult>)
      requires t < |timers| && Expired(timers[t], now) && state.Valid()
      modifies this, state`queue, state`enqueued, state`results
      ensures state.Valid() && fresh(accepted) && |accepted| <= |handlers|
      ensures state.queue == old(state.queue) + Calls(handlers, [], accepted, old(timers)[t].eventName)
      ensures resultsToCheck == old(resultsToCheck) + accepted
      ensures timers == old(timers)[t := old(timers)[t].(lastCompletion :=
        if |accepted| == |handlers| then now else old(timers)[t].lastCompletion)]
      ensures old(timers)[t].strategy.Precise? ==> |accepted| == |handlers|
      ensures old(timers)[t].strategy.BestEffort? ==>
        |accepted| == if handlers == [] || Pending(old(state.queue), old(timers)[t].eventName) then 0 else 1
    {
      var timer := timers[t];
      timers := timers[t := timer.(lastCompletion := now)];
      accepted := [];
      for i := 0 to |handlers|
        invariant |accepted| == i
        invariant state.Valid() && fresh(accepted)
        invariant timers == old(timers)[t := timer.(lastCompletion := now)]
        invariant state.queue == old(state.queue) + Calls(handlers, [], accepted, timer.eventName)
        invariant resultsToCheck == old(resultsToCheck) + accepted
        invariant timer.strategy.BestEffort? && i > 0 ==> i == 1 && !Pending(old(state.queue), timer.eventName)
      {
        PendingIffOffered(old(state.queue), handlers, accepted, timer.eventName);
        ghost var offered := accepted;
        var result := state.EnqueueFunctionCallFromCustomEvent(handlers[i], [], timer.eventName, timer.strategy);
        if result.None? {
          timers := timers[t := timer];
          break;
        }
        accepted := accepted + [result.value];
        resultsToCheck := resultsToCheck + [result.value];
        CallsGrow(handlers, [], offered, result.value, timer.eventName);
      }
    }
  }
}
