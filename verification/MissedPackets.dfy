/**
 The missed-packet queue of one client, with the looper thread that drains it, the sync thread that holds it
 back, and any number of threads that fill it or disconnect the client, in every interleaving of their steps.
 */
module MissedPackets {
  import opened Clients

  /** Where the looper thread stands. */
  datatype Looper = Waiting | Draining | Sending(m: Message) | Failed | Stopped

  /** `enqueued` and `delivered` record everything so far; the other fields are the client's. */
  datatype State = State(
    queue: seq<Message>, isSyncing: bool, isSynced: bool, connected: bool, looper: Looper,
    enqueued: seq<Message>, delivered: seq<Message>)

  datatype Step =
    | Enqueue(m: Message)
    | StartSync
    | AbortSync
    | FinishSync
    | Disconnect
    | LooperCheck
    | LooperPop
    | SendDone(ok: bool)
    | Discard

  predicate Can(s: State, step: Step) {
    match step
    case Enqueue(_) => true
    case StartSync => !s.isSynced && !s.isSyncing
    case AbortSync => s.isSyncing && !s.connected
    case FinishSync => s.isSyncing
    case Disconnect => true
    case LooperCheck => s.looper.Waiting?
    case LooperPop => s.looper.Draining?
    case SendDone(_) => s.looper.Sending?
    case Discard => s.looper.Failed?
  }

  function Next(s: State, step: Step): State
    requires Can(s, step)
  {
    match step
    case Enqueue(m) => s.(queue := s.queue + [m], enqueued := s.enqueued + [m])
    case StartSync => s.(isSyncing := true)
    case AbortSync => s.(isSyncing := false)
    case FinishSync => s.(isSyncing := false, isSynced := true)
    case Disconnect => s.(connected := false)
    case LooperCheck =>
      if !s.connected then s.(looper := Stopped)
      else if !s.isSyncing && s.isSynced && s.queue != [] then s.(looper := Draining)
      else s
    case LooperPop =>
      if s.queue == [] then s.(looper := Waiting) else s.(queue := s.queue[1..], looper := Sending(s.queue[0]))
    case SendDone(ok) =>
      if ok then s.(looper := Draining, delivered := s.delivered + [s.looper.m])
      else s.(looper := Failed, connected := false, delivered := s.delivered)
    case Discard => s.(queue := [], looper := Waiting)
  }

  function InFlight(s: State): seq<Message> {
    if s.looper.Sending? then [s.looper.m] else []
  }

  function Start(): State {
    State([], false, false, true, Waiting, [], [])
  }

  ghost predicate Run(states: seq<State>, steps: seq<Step>) {
    && |states| == |steps| + 1
    && states[0] == Start()
    && forall i | 0 <= i < |steps| :: Can(states[i], steps[i]) && states[i + 1] == Next(states[i], steps[i])
  }

  ghost predicate Inv(s: State) {
    && (s.looper.Failed? ==> !s.connected)
    && (s.looper.Draining? || s.looper.Sending? ==> s.isSynced)
    && (s.isSynced ==> !s.isSyncing)
    && (!s.isSynced ==> s.delivered == [])
    && s.delivered + InFlight(s) <= s.enqueued
    && (s.connected || s.looper.Draining? || s.looper.Sending? ==> s.delivered + InFlight(s) + s.queue == s.enqueued)
  }

  lemma StepPreserves(s: State, step: Step)
    requires Inv(s) && Can(s, step)
    ensures Inv(Next(s, step))
  {
    var s' := Next(s, step);
    match step
    case Enqueue(m) =>
      assert s.delivered + InFlight(s) + (s.queue + [m]) == s.delivered + InFlight(s) + s.queue + [m];
    case LooperPop =>
      if s.queue != [] {
        assert s.delivered + InFlight(s') + s.queue[1..] == s.delivered + s.queue;
      }
    case _ =>
  }

  lemma {:induction false} RunInv(states: seq<State>, steps: seq<Step>, n: nat)
    requires Run(states, steps) && n < |states|
    ensures Inv(states[n])
  {
    if n > 0 {
      RunInv(states, steps, n - 1);
      StepPreserves(states[n - 1], steps[n - 1]);
    }
  }

  /** While the client is connected nothing is lost, duplicated or reordered. */
  lemma NothingLost(states: seq<State>, steps: seq<Step>, n: nat)
    requires Run(states, steps) && n < |states|
    ensures states[n].connected ==>
      states[n].delivered + InFlight(states[n]) + states[n].queue == states[n].enqueued
    ensures states[n].delivered + InFlight(states[n]) <= states[n].enqueued
  {
    RunInv(states, steps, n);
  }

  /** Nothing leaves the queue before syncing is over, and syncing never starts again afterwards. */
  lemma NothingDrainedWhileSyncing(states: seq<State>, steps: seq<Step>, n: nat)
    requires Run(states, steps) && n < |steps|
    ensures steps[n].LooperPop? ==> states[n].isSynced && !states[n].isSyncing
    ensures states[n].isSyncing ==> states[n].delivered == [] && InFlight(states[n]) == []
  {
    RunInv(states, steps, n);
  }

  /** The queue is thrown away only of a client that is already disconnected, which it then stays. */
  lemma {:induction false} DiscardIsTerminal(states: seq<State>, steps: seq<Step>, d: nat, n: nat)
    requires Run(states, steps) && d < |steps| && steps[d].Discard? && d <= n < |states|
    ensures !states[n].connected
    ensures d < n ==> states[n].looper.Waiting? || states[n].looper.Stopped?
    ensures d < n ==> states[n].delivered == states[d].delivered
  {
    if d == n {
      RunInv(states, steps, n);
    } else {
      DiscardIsTerminal(states, steps, d, n - 1);
    }
  }

  /** The looper's own steps on the way through the queue, every send succeeding. */
  function DrainSteps(n: nat): seq<Step> {
    if n == 0 then [LooperPop] else [LooperPop, SendDone(true)] + DrainSteps(n - 1)
  }

  ghost predicate Path(s: State, steps: seq<Step>, t: State)
    decreases |steps|
  {
    if steps == [] then s == t else Can(s, steps[0]) && Path(Next(s, steps[0]), steps[1..], t)
  }

  /** Once the looper drains, it empties the queue, front first. */
  lemma {:induction false} DrainEmpties(s: State)
    requires s.looper.Draining?
    ensures Path(s, DrainSteps(|s.queue|), s.(queue := [], looper := Waiting, delivered := s.delivered + s.queue))
    decreases |s.queue|
  {
    var steps := DrainSteps(|s.queue|);
    if s.queue == [] {
      assert steps[1..] == [] && s.delivered + s.queue == s.delivered;
    } else {
      var next := s.(queue := s.queue[1..], delivered := s.delivered + [s.queue[0]]);
      assert steps[1..] == [SendDone(true)] + DrainSteps(|s.queue| - 1);
      assert steps[1..][1..] == DrainSteps(|s.queue| - 1);
      DrainEmpties(next);
      assert next.delivered + next.queue == s.delivered + s.queue;
    }
  }

  /**
   A connected client that is synced, its looper waiting, gets everything ever enqueued: the looper's next check
   starts the drain if there is anything, and left alone with a working socket it delivers the whole queue.
   */
  lemma EverythingDelivered(states: seq<State>, steps: seq<Step>, n: nat)
    requires Run(states, steps) && n < |states|
    requires states[n].connected && states[n].isSynced && states[n].looper.Waiting? && states[n].queue != []
    ensures
      var s := states[n];
      Path(s, [LooperCheck] + DrainSteps(|s.queue|), s.(queue := [], delivered := s.enqueued))
  {
    var s := states[n];
    RunInv(states, steps, n);
    DrainEmpties(Next(s, LooperCheck));
    assert ([LooperCheck] + DrainSteps(|s.queue|))[1..] == DrainSteps(|s.queue|);
    assert s.delivered + [] + s.queue == s.delivered + s.queue;
  }
}
