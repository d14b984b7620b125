/**
 The engine's timer loop interleaved with everything that may happen beside it: Lua states take calls between two
 handlers of the same timer, other sources enqueue calls for the same events, results become ready and are checked.
 The lock on the timer list lets timers be created and cancelled only between passes, and the lock on the check
 list is held while a timer fires.
 */
module Timers {
  import opened LuaEngine

  /** A ticket is the index of a call among all calls ever enqueued; it stands for the call's result too. */
  type Ticket = nat

  datatype Call = Call(stateId: string, functionName: string, eventName: string, fromBestEffort: bool)

  datatype Pass =
    | Idle
    | Walking(index: nat)
    | Firing(
        index: nat, before: TimedEvent, handlers: seq<string>, reset: int,
        accepted: seq<Ticket>, checkedBefore: seq<Ticket>)

  /** What one firing of a timer has come to. */
  datatype Fired = Fired(
    before: TimedEvent, after: TimedEvent, handlers: seq<string>, reset: int,
    accepted: seq<Ticket>, checkedBefore: seq<Ticket>, checkedAfter: seq<Ticket>)

  datatype State = State(
    timers: seq<TimedEvent>,
    issued: seq<Call>,
    queues: map<string, seq<Ticket>>,
    taken: set<Ticket>,
    ready: set<Ticket>,
    toCheck: seq<Ticket>,
    pass: Pass,
    fired: seq<Fired>)

  datatype Step =
    | Enqueue(stateId: string, functionName: string, eventName: string)
    | Take(taker: string)
    | Finish(ticket: Ticket)
    | CheckResults
    | AddResultToCheck(watched: Ticket)
    | CreateEventTimer(timer: TimedEvent)
    | CancelEventTimers(cancelled: string, owner: string)
    | StartPass
    | NotExpired(looked: int)
    | Fire(checked: int, reset: int, handlers: seq<string>)
    | Offer
    | EndPass

  const INIT := State([], [], map[], {}, {}, [], Idle, [])

  function Queue(s: State, id: string): seq<Ticket> {
    if id in s.queues then s.queues[id] else []
  }

  predicate PendingFor(issued: seq<Call>, queue: seq<Ticket>, eventName: string) {
    exists i :: 0 <= i < |queue| && queue[i] < |issued| && issued[queue[i]].eventName == eventName
  }

  predicate Can(s: State, step: Step) {
    match step
    case Enqueue(_, _, _) => true
    case Take(id) => Queue(s, id) != []
    case Finish(t) => t in s.taken
    case CheckResults => !s.pass.Firing?
    case AddResultToCheck(_) => !s.pass.Firing?
    case CreateEventTimer(_) => s.pass.Idle?
    case CancelEventTimers(_, _) => s.pass.Idle?
    case StartPass => s.pass.Idle?
    case NotExpired(now) =>
      s.pass.Walking? && s.pass.index < |s.timers| && !Expired(s.timers[s.pass.index], now)
    case Fire(checked, reset, _) =>
      && s.pass.Walking? && s.pass.index < |s.timers|
      && Expired(s.timers[s.pass.index], checked) && checked <= reset
    case Offer => s.pass.Firing? && s.pass.index < |s.timers|
    case EndPass => s.pass.Walking? && s.pass.index == |s.timers|
  }

  function Push(s: State, call: Call): State {
    s.(issued := s.issued + [call],
       queues := s.queues[call.stateId := Queue(s, call.stateId) + [|s.issued|]])
  }

  function Unchecked(toCheck: seq<Ticket>, ready: set<Ticket>): seq<Ticket> {
    if toCheck == [] then []
    else (if toCheck[0] in ready then [] else [toCheck[0]]) + Unchecked(toCheck[1..], ready)
  }

  /** Offers the next handler; when there is none left, or the offer is refused, the firing is over. */
  function OfferNext(s: State): State
    requires Can(s, Offer)
  {
    var p := s.pass;
    var n := |p.accepted|;
    if n >= |p.handlers| then
      Done(s, s.timers[p.index])
    else if p.before.strategy.BestEffort? && PendingFor(s.issued, Queue(s, p.before.stateId), p.before.eventName) then
      Done(s, s.timers[p.index].(lastCompletion := p.before.lastCompletion))
    else
      var call := Call(p.before.stateId, p.handlers[n], p.before.eventName, p.before.strategy.BestEffort?);
      Accept(s, call)
  }

  function Accept(s: State, call: Call): State
    requires Can(s, Offer)
  {
    Push(s, call).(toCheck := s.toCheck + [|s.issued|], pass := s.pass.(accepted := s.pass.accepted + [|s.issued|]))
  }

  function Done(s: State, after: TimedEvent): State
    requires Can(s, Offer)
  {
    var p := s.pass;
    s.(timers := s.timers[p.index := after],
       pass := Walking(p.index + 1),
       fired := s.fired + [Fired(p.before, after, p.handlers, p.reset, p.accepted, p.checkedBefore, s.toCheck)])
  }

  function Next(s: State, step: Step): State
    requires Can(s, step)
  {
    match step
    case Enqueue(id, functionName, eventName) => Push(s, Call(id, functionName, eventName, false))
    case Take(id) => s.(queues := s.queues[id := Queue(s, id)[1..]], taken := s.taken + {Queue(s, id)[0]})
    case Finish(t) => s.(ready := s.ready + {t})
    case CheckResults => s.(toCheck := Unchecked(s.toCheck, s.ready))
    case AddResultToCheck(t) => s.(toCheck := s.toCheck + [t])
    case CreateEventTimer(timer) => s.(timers := s.timers + [timer])
    case CancelEventTimers(eventName, id) => s.(timers := Remaining(s.timers, eventName, id))
    case StartPass => s.(pass := Walking(0))
    case NotExpired(_) => s.(pass := Walking(s.pass.index + 1))
    case Fire(_, reset, handlers) =>
      var i, timer := s.pass.index, s.timers[s.pass.index];
      s.(timers := s.timers[i := timer.(lastCompletion := reset)],
         pass := Firing(i, timer, handlers, reset, [], s.toCheck))
    case Offer => OfferNext(s)
    case EndPass => s.(pass := Idle)
  }

  /*******************************************************************************
   *  What every run keeps
   *******************************************************************************/

  /** Tickets wait in the order they were issued, in the queue of the state they were issued for. */
  predicate OrderedQueue(issued: seq<Call>, queue: seq<Ticket>, id: string) {
    && (forall i | 0 <= i < |queue| :: queue[i] < |issued| && issued[queue[i]].stateId == id)
    && (forall i, j | 0 <= i < j < |queue| :: queue[i] < queue[j])
  }

  /** Of the calls that wait for one event, at most one comes from a best-effort timer. */
  predicate OneBestEffort(issued: seq<Call>, queue: seq<Ticket>) {
    forall i, j | 0 <= i < j < |queue| && queue[i] < |issued| && queue[j] < |issued| ::
      issued[queue[i]].fromBestEffort && issued[queue[j]].fromBestEffort
      ==> issued[queue[i]].eventName != issued[queue[j]].eventName
  }

  ghost predicate QueuesOk(s: State) {
    forall id | id in s.queues :: OrderedQueue(s.issued, s.queues[id], id) && OneBestEffort(s.issued, s.queues[id])
  }

  /** Every call ever issued is either waiting or has been taken, never both. */
  ghost predicate Conserved(s: State) {
    && (forall t | t in s.taken :: t < |s.issued|)
    && (forall t | 0 <= t < |s.issued| :: t in s.taken <==> t !in Queue(s, s.issued[t].stateId))
    && s.ready <= s.taken
  }

  /** The accepted handlers are the first of the list, each by the call it led to. */
  predicate Accepted(issued: seq<Call>, timer: TimedEvent, handlers: seq<string>, accepted: seq<Ticket>) {
    && |accepted| <= |handlers|
    && (forall i, j | 0 <= i < j < |accepted| :: accepted[i] < accepted[j])
    && (forall i | 0 <= i < |accepted| ::
          && accepted[i] < |issued|
          && issued[accepted[i]] == Call(timer.stateId, handlers[i], timer.eventName, timer.strategy.BestEffort?))
  }

  ghost predicate Watched(s: State, accepted: seq<Ticket>) {
    forall t | t in accepted :: t in s.toCheck || t in s.ready
  }

  predicate FiredOk(issued: seq<Call>, f: Fired) {
    && Accepted(issued, f.before, f.handlers, f.accepted)
    && f.checkedAfter == f.checkedBefore + f.accepted
    && f.after == f.before.(lastCompletion := if |f.accepted| == |f.handlers| then f.reset else f.before.lastCompletion)
    && (f.before.strategy.Precise? ==> |f.accepted| == |f.handlers|)
    && f.reset - f.before.lastCompletion >= f.before.duration
  }

  predicate PassOk(s: State) {
    match s.pass
    case Idle => true
    case Walking(i) => i <= |s.timers|
    case Firing(i, before, handlers, reset, accepted, checkedBefore) =>
      && i < |s.timers|
      && s.timers[i] == before.(lastCompletion := reset)
      && Accepted(s.issued, before, handlers, accepted)
      && s.toCheck == checkedBefore + accepted
      && reset - before.lastCompletion >= before.duration
  }

  ghost predicate HistoryOk(s: State) {
    forall i | 0 <= i < |s.fired| :: FiredOk(s.issued, s.fired[i]) && Watched(s, s.fired[i].accepted)
  }

  ghost predicate Inv(s: State) {
    QueuesOk(s) && Conserved(s) && PassOk(s) && HistoryOk(s)
  }

  lemma PushOrdered(issued: seq<Call>, queue: seq<Ticket>, call: Call, id: string)
    requires OrderedQueue(issued, queue, id)
    ensures OrderedQueue(issued + [call], queue, id)
    ensures call.stateId == id ==> OrderedQueue(issued + [call], queue + [|issued|], id)
  {
  }

  lemma PushOneBestEffort(issued: seq<Call>, queue: seq<Ticket>, call: Call, id: string)
    requires OrderedQueue(issued, queue, id) && OneBestEffort(issued, queue)
    requires call.fromBestEffort ==> !PendingFor(issued, queue, call.eventName)
    ensures OneBestEffort(issued + [call], queue) && OneBestEffort(issued + [call], queue + [|issued|])
  {
  }

  lemma PushQueues(s: State, call: Call)
    requires QueuesOk(s)
    requires call.fromBestEffort ==> !PendingFor(s.issued, Queue(s, call.stateId), call.eventName)
    ensures QueuesOk(Push(s, call))
  {
    var n := Push(s, call);
    forall id | id in n.queues
      ensures OrderedQueue(n.issued, n.queues[id], id) && OneBestEffort(n.issued, n.queues[id])
    {
      if id == call.stateId {
        PushOrdered(s.issued, Queue(s, id), call, id);
        PushOneBestEffort(s.issued, Queue(s, id), call, id);
      } else {
        PushOrdered(s.issued, s.queues[id], call, id);
        PushOneBestEffort(s.issued, s.queues[id], call.(fromBestEffort := false), id);
        assert OneBestEffort(n.issued, s.queues[id]);
      }
    }
  }

  lemma PushConserved(s: State, call: Call)
    requires Conserved(s) && QueuesOk(s)
    ensures Conserved(Push(s, call))
  {
    var n := Push(s, call);
    forall t | 0 <= t < |n.issued| ensures t in n.taken <==> t !in Queue(n, n.issued[t].stateId) {
      if t == |s.issued| {
        assert Queue(n, call.stateId)[|Queue(s, call.stateId)|] == t;
      }
    }
  }

  lemma PushHistory(s: State, call: Call)
    requires HistoryOk(s)
    ensures HistoryOk(Push(s, call))
  {
    var n := Push(s, call);
    forall i | 0 <= i < |s.fired| ensures FiredOk(n.issued, s.fired[i]) && Watched(n, s.fired[i].accepted) {
      assert FiredOk(s.issued, s.fired[i]) && Watched(s, s.fired[i].accepted);
    }
  }

  lemma TakeQueues(s: State, id: string)
    requires QueuesOk(s) && Can(s, Take(id))
    ensures QueuesOk(Next(s, Take(id)))
  {
    var queue := s.queues[id];
    assert OrderedQueue(s.issued, queue, id) && OneBestEffort(s.issued, queue);
    TailOk(s.issued, queue, id);
  }

  lemma TailOk(issued: seq<Call>, queue: seq<Ticket>, id: string)
    requires OrderedQueue(issued, queue, id) && OneBestEffort(issued, queue) && queue != []
    ensures OrderedQueue(issued, queue[1..], id) && OneBestEffort(issued, queue[1..])
  {
  }

  lemma TakeConserved(s: State, id: string)
    requires QueuesOk(s) && Conserved(s) && Can(s, Take(id))
    ensures Conserved(Next(s, Take(id)))
  {
    var n := Next(s, Take(id));
    var queue := s.queues[id];
    assert OrderedQueue(s.issued, queue, id);
    forall t | 0 <= t < |s.issued| ensures t in n.taken <==> t !in Queue(n, s.issued[t].stateId) {
      if s.issued[t].stateId == id {
        TailMembers(queue, t);
      }
    }
  }

  lemma TailMembers(queue: seq<Ticket>, t: Ticket)
    requires queue != [] && forall i, j | 0 <= i < j < |queue| :: queue[i] < queue[j]
    ensures t in queue[1..] <==> t in queue && t != queue[0]
  {
  }

  lemma {:induction false} UncheckedExactly(toCheck: seq<Ticket>, ready: set<Ticket>, t: Ticket)
    ensures t in Unchecked(toCheck, ready) <==> t in toCheck && t !in ready
  {
    if toCheck != [] {
      UncheckedExactly(toCheck[1..], ready, t);
    }
  }

  /** What is dropped from the check list was ready, so nothing is forgotten. */
  lemma WatchedStays(s: State, n: State)
    requires HistoryOk(s) && n.issued == s.issued && n.fired == s.fired && s.ready <= n.ready
    requires forall t | t in s.toCheck :: t in n.toCheck || t in n.ready
    ensures HistoryOk(n)
  {
    forall i | 0 <= i < |n.fired| ensures FiredOk(n.issued, n.fired[i]) && Watched(n, n.fired[i].accepted) {
      assert Watched(s, s.fired[i].accepted);
    }
  }

  lemma AcceptOne(issued: seq<Call>, timer: TimedEvent, handlers: seq<string>, accepted: seq<Ticket>)
    requires Accepted(issued, timer, handlers, accepted) && |accepted| < |handlers|
    ensures
      var call := Call(timer.stateId, handlers[|accepted|], timer.eventName, timer.strategy.BestEffort?);
      Accepted(issued + [call], timer, handlers, accepted + [|issued|])
  {
  }

  lemma DonePreserves(s: State, after: TimedEvent)
    requires Inv(s) && Can(s, Offer)
    requires
      var p := s.pass;
      FiredOk(s.issued, Fired(p.before, after, p.handlers, p.reset, p.accepted, p.checkedBefore, s.toCheck))
    ensures Inv(Done(s, after))
  {
    var n := Done(s, after);
    forall i | 0 <= i < |n.fired| ensures FiredOk(n.issued, n.fired[i]) && Watched(n, n.fired[i].accepted) {
      if i < |s.fired| {
        assert Watched(s, s.fired[i].accepted);
      }
    }
  }

  lemma SameCalls(s: State, n: State)
    requires QueuesOk(s) && Conserved(s)
    requires n.issued == s.issued && n.queues == s.queues && n.taken == s.taken && n.ready == s.ready
    ensures QueuesOk(n) && Conserved(n)
  {
    forall t | 0 <= t < |n.issued| ensures t in n.taken <==> t !in Queue(n, n.issued[t].stateId) {
      assert Queue(n, n.issued[t].stateId) == Queue(s, s.issued[t].stateId);
    }
  }

  lemma AcceptKeepsCalls(s: State, call: Call)
    requires QueuesOk(s) && Conserved(s) && Can(s, Offer) && |s.pass.accepted| < |s.pass.handlers|
    requires call.fromBestEffort ==> !PendingFor(s.issued, Queue(s, call.stateId), call.eventName)
    ensures QueuesOk(Accept(s, call)) && Conserved(Accept(s, call))
  {
    PushQueues(s, call);
    PushConserved(s, call);
    SameCalls(Push(s, call), Accept(s, call));
  }

  lemma AcceptKeepsHistory(s: State, call: Call)
    requires HistoryOk(s) && Can(s, Offer) && |s.pass.accepted| < |s.pass.handlers|
    ensures HistoryOk(Accept(s, call))
  {
    PushHistory(s, call);
    WatchedStays(Push(s, call), Accept(s, call));
  }

  lemma AcceptPreserves(s: State)
    requires Inv(s) && Can(s, Offer) && OfferNext(s).pass.Firing?
    ensures Inv(OfferNext(s))
  {
    var p := s.pass;
    var call := Call(p.before.stateId, p.handlers[|p.accepted|], p.before.eventName, p.before.strategy.BestEffort?);
    AcceptKeepsCalls(s, call);
    AcceptKeepsHistory(s, call);
    AcceptOne(s.issued, p.before, p.handlers, p.accepted);
  }

  lemma OfferPreserves(s: State)
    requires Inv(s) && Can(s, Offer)
    ensures Inv(Next(s, Offer))
  {
    if OfferNext(s).pass.Firing? {
      AcceptPreserves(s);
    } else {
      DonePreserves(s, OfferNext(s).timers[s.pass.index]);
    }
  }

  lemma StepPreserves(s: State, step: Step)
    requires Inv(s) && Can(s, step)
    ensures Inv(Next(s, step))
  {
    var n := Next(s, step);
    match step {
      case Enqueue(id, functionName, eventName) =>
        var call := Call(id, functionName, eventName, false);
        PushQueues(s, call);
        PushConserved(s, call);
        PushHistory(s, call);
      case Take(id) =>
        TakeQueues(s, id);
        TakeConserved(s, id);
        WatchedStays(s, n);
      case Offer =>
        OfferPreserves(s);
      case CheckResults =>
        forall t | t in s.toCheck ensures t in n.toCheck || t in n.ready {
          UncheckedExactly(s.toCheck, s.ready, t);
        }
        WatchedStays(s, n);
      case _ =>
        WatchedStays(s, n);
    }
  }

  function Run(s: State, steps: seq<Step>): (n: State)
    decreases |steps|
  {
    if steps == [] then s
    else if Can(s, steps[0]) then Run(Next(s, steps[0]), steps[1..])
    else Run(s, steps[1..])
  }

  lemma {:induction false} RunInv(s: State, steps: seq<Step>)
    requires Inv(s)
    ensures Inv(Run(s, steps))
    decreases |steps|
  {
    if steps != [] {
      if Can(s, steps[0]) {
        StepPreserves(s, steps[0]);
        RunInv(Next(s, steps[0]), steps[1..]);
      } else {
        RunInv(s, steps[1..]);
      }
    }
  }

  /** A look at a timer passes it over exactly when less than its interval has gone by since its last completion. */
  lemma PassedOverIff(s: State, now: int, handlers: seq<string>)
    requires s.pass.Walking? && s.pass.index < |s.timers|
    ensures
      var timer := s.timers[s.pass.index];
      && (Can(s, NotExpired(now)) <==> now < timer.lastCompletion + timer.duration)
      && (Can(s, Step.Fire(now, now, handlers)) <==> now >= timer.lastCompletion + timer.duration)
  {
  }

  /** In every run a queue never holds two calls for one event that best-effort timers put there. */
  lemma AtMostOneBestEffort(steps: seq<Step>, id: string, i: nat, j: nat)
    requires i < |Queue(Run(INIT, steps), id)| && j < |Queue(Run(INIT, steps), id)|
    requires
      var s := Run(INIT, steps);
      var queue := Queue(s, id);
      && queue[i] < |s.issued| && queue[j] < |s.issued|
      && s.issued[queue[i]].fromBestEffort && s.issued[queue[j]].fromBestEffort
      && s.issued[queue[i]].eventName == s.issued[queue[j]].eventName
    ensures i == j
  {
    RunInv(INIT, steps);
    var s := Run(INIT, steps);
    assert OneBestEffort(s.issued, s.queues[id]);
  }

  /** In every run each firing has accepted a prefix, listed exactly those results, and kept or reset its timer. */
  lemma EveryFiring(steps: seq<Step>, i: nat)
    requires i < |Run(INIT, steps).fired|
    ensures FiredOk(Run(INIT, steps).issued, Run(INIT, steps).fired[i])
  {
    RunInv(INIT, steps);
  }

  /** In every run an accepted call's result stays in the check list until it is ready. */
  lemma NoResultForgotten(steps: seq<Step>, i: nat, t: Ticket)
    requires i < |Run(INIT, steps).fired| && t in Run(INIT, steps).fired[i].accepted
    ensures t in Run(INIT, steps).toCheck || t in Run(INIT, steps).ready
  {
    RunInv(INIT, steps);
    var s := Run(INIT, steps);
    assert Watched(s, s.fired[i].accepted);
  }
}
