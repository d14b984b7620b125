/**
 Two races decided by one atomic exchange each: who disconnects a client, and whether a timed read ends by
 data or by timeout. Every interleaving of the threads' steps is a run.
 */
module Races {
  import opened Clients

  /*******************************************************************************
   *  Disconnect
   *******************************************************************************/

  /** Where one caller of Disconnect stands. */
  datatype Caller = Outside | Won | Closed | Returned(won: bool)

  datatype Disconnects = Disconnects(state: DisconnectState, socketOpen: bool, closedBy: seq<nat>, callers: seq<Caller>)

  datatype Move = Exchange | Close | Store

  predicate CanMove(s: Disconnects, who: nat, move: Move) {
    who < |s.callers| &&
    match move
    case Exchange => s.callers[who].Outside?
    case Close => s.callers[who].Won?
    case Store => s.callers[who].Closed?
  }

  function Moved(s: Disconnects, who: nat, move: Move): Disconnects
    requires CanMove(s, who, move)
  {
    match move
    case Exchange =>
      if s.state == Connected then s.(state := Disconnecting, callers := s.callers[who := Won])
      else s.(callers := s.callers[who := Returned(false)])
    case Close =>
      s.(socketOpen := false,
         closedBy := if s.socketOpen then s.closedBy + [who] else s.closedBy,
         callers := s.callers[who := Closed])
    case Store => s.(state := Disconnected, callers := s.callers[who := Returned(true)])
  }

  ghost predicate DisconnectRun(states: seq<Disconnects>, moves: seq<(nat, Move)>) {
    && |states| == |moves| + 1
    && states[0].state == Connected && states[0].socketOpen && states[0].closedBy == []
    && (forall i | 0 <= i < |states[0].callers| :: states[0].callers[i] == Outside)
    && forall i | 0 <= i < |moves| ::
         CanMove(states[i], moves[i].0, moves[i].1) && states[i + 1] == Moved(states[i], moves[i].0, moves[i].1)
  }

  predicate Winner(c: Caller) {
    c.Won? || c.Closed? || c == Returned(true)
  }

  function Rank(s: DisconnectState): nat {
    match s
    case Connected => 0
    case Disconnecting => 1
    case Disconnected => 2
  }

  ghost predicate DisconnectInv(s: Disconnects) {
    && (s.state == Connected <==> forall i | 0 <= i < |s.callers| :: s.callers[i] == Outside)
    && (forall i, j | 0 <= i < j < |s.callers| :: !(Winner(s.callers[i]) && Winner(s.callers[j])))
    && (s.state != Connected ==> exists w :: IsWinner(s, w))
    && (s.state == Disconnected <==> exists w | 0 <= w < |s.callers| :: s.callers[w] == Returned(true))
    && (s.socketOpen ==> s.closedBy == [] && forall i | 0 <= i < |s.callers| ::
          s.callers[i].Outside? || s.callers[i].Won? || s.callers[i] == Returned(false))
    && (!s.socketOpen ==> |s.closedBy| == 1 && IsWinner(s, s.closedBy[0]) && !s.callers[s.closedBy[0]].Won?)
  }

  predicate IsWinner(s: Disconnects, w: int) {
    0 <= w < |s.callers| && Winner(s.callers[w])
  }

  lemma DisconnectStep(s: Disconnects, who: nat, move: Move)
    requires DisconnectInv(s) && CanMove(s, who, move)
    ensures DisconnectInv(Moved(s, who, move))
    ensures Rank(s.state) <= Rank(Moved(s, who, move).state) <= Rank(s.state) + 1
  {
    var s' := Moved(s, who, move);
    assert forall i | 0 <= i < |s.callers| && i != who :: s'.callers[i] == s.callers[i];
    if s.state == Connected {
      assert s.callers[who] == Outside;
      assert IsWinner(s', who);
    } else {
      var w :| IsWinner(s, w);
      assert IsWinner(s', w);
      match move
      case Exchange =>
        assert forall i | 0 <= i < |s.callers| :: s'.callers[i] == Returned(true) <==> s.callers[i] == Returned(true);
      case Close => assert who == w;
        assert forall i | IsWinner(s, i) :: i == w;
        assert forall i | 0 <= i < |s.callers| :: s'.callers[i] == Returned(true) <==> s.callers[i] == Returned(true);
      case Store => assert who == w;
        assert s'.callers[who] == Returned(true);
    }
  }

  lemma {:induction false} DisconnectRunInv(states: seq<Disconnects>, moves: seq<(nat, Move)>, n: nat)
    requires DisconnectRun(states, moves) && n < |states|
    ensures DisconnectInv(states[n]) && |states[n].callers| == |states[0].callers|
  {
    if n > 0 {
      DisconnectRunInv(states, moves, n - 1);
      DisconnectStep(states[n - 1], moves[n - 1].0, moves[n - 1].1);
    }
  }

  /** When every caller has returned, exactly one was told it won, and the socket was closed once, by it. */
  lemma OneDisconnectWins(states: seq<Disconnects>, moves: seq<(nat, Move)>, n: nat) returns (winner: nat)
    requires DisconnectRun(states, moves) && n < |states| && states[n].callers != []
    requires forall i | 0 <= i < |states[n].callers| :: states[n].callers[i].Returned?
    ensures winner < |states[n].callers|
    ensures forall i | 0 <= i < |states[n].callers| :: states[n].callers[i] == Returned(i == winner)
    ensures states[n].state == Disconnected && !states[n].socketOpen && states[n].closedBy == [winner]
  {
    DisconnectRunInv(states, moves, n);
    var s := states[n];
    assert s.callers[0].Returned?;
    var w :| IsWinner(s, w);
    winner := w;
    assert s.callers[w] == Returned(true);
    assert !s.socketOpen;
    assert IsWinner(s, s.closedBy[0]);
    assert forall i | IsWinner(s, i) :: i == winner;
    assert forall i | 0 <= i < |s.callers| :: s.callers[i] == Returned(true) ==> IsWinner(s, i);
  }

  /** In every interleaving the state only moves forward. */
  lemma {:induction false} DisconnectOnlyForward(states: seq<Disconnects>, moves: seq<(nat, Move)>, m: nat, n: nat)
    requires DisconnectRun(states, moves) && m <= n < |states|
    ensures Rank(states[m].state) <= Rank(states[n].state)
  {
    if m < n {
      DisconnectOnlyForward(states, moves, m, n - 1);
      DisconnectRunInv(states, moves, n - 1);
      DisconnectStep(states[n - 1], moves[n - 1].0, moves[n - 1].1);
    }
  }

  /*******************************************************************************
   *  Reading with a timeout
   *******************************************************************************/

  /** A handler first exchanges the flag; only the winner goes on to its second half. */
  datatype Handler = NotRun | Winning | Finished(won: bool)

  datatype Timer = Unarmed | Armed | Expired | Cancelled | TimerDone

  datatype Answer = Data(bytes: nat) | ReadError | TimedOut

  /** `outcome` is what the read has come to, once its handler is called with it. */
  datatype TimedRead = TimedRead(
    completed: bool, promise: seq<Answer>, outcome: seq<Answer>, read: Handler, timer: Timer, timeout: Handler)

  datatype ReadStep =
    | ArmTimer
    | Expire
    | ReadHandlerExchange(answer: Answer)
    | ReadHandlerAnswer
    | TimeoutHandlerAborted
    | TimeoutHandlerExchange
    | TimeoutHandlerAnswer

  predicate CanStep(s: TimedRead, step: ReadStep) {
    match step
    case ArmTimer => s.timer.Unarmed?
    case Expire => s.timer.Armed?
    case ReadHandlerExchange(answer) => s.read.NotRun? && !answer.TimedOut?
    case ReadHandlerAnswer => s.read.Winning? && s.outcome != []
    case TimeoutHandlerAborted => s.timer.Cancelled? && s.timeout.NotRun?
    case TimeoutHandlerExchange => s.timer.Expired? && s.timeout.NotRun?
    case TimeoutHandlerAnswer => s.timeout.Winning?
  }

  /** Cancelling reaches a timer that is waiting; one that expired already still runs its handler. */
  function StepRead(s: TimedRead, step: ReadStep): TimedRead
    requires CanStep(s, step)
  {
    match step
    case ArmTimer => s.(timer := Armed)
    case Expire => s.(timer := Expired)
    case ReadHandlerExchange(answer) =>
      s.(completed := true, outcome := [answer], read := if s.completed then Finished(false) else Winning)
    case ReadHandlerAnswer =>
      s.(timer := if s.timer.Armed? then Cancelled else s.timer,
         promise := s.promise + s.outcome, read := Finished(true))
    case TimeoutHandlerAborted => s.(timer := TimerDone, timeout := Finished(false))
    case TimeoutHandlerExchange =>
      s.(completed := true, timer := TimerDone, timeout := if s.completed then Finished(false) else Winning)
    case TimeoutHandlerAnswer => s.(promise := s.promise + [TimedOut], timeout := Finished(true))
  }

  const READ_STARTED := TimedRead(false, [], [], NotRun, Unarmed, NotRun)

  ghost predicate ReadRun(states: seq<TimedRead>, steps: seq<ReadStep>) {
    && |states| == |steps| + 1
    && states[0] == READ_STARTED
    && forall i | 0 <= i < |steps| :: CanStep(states[i], steps[i]) && states[i + 1] == StepRead(states[i], steps[i])
  }

  function Answered(h: Handler): nat {
    if h == Finished(true) then 1 else 0
  }

  function Claimed(h: Handler): nat {
    if h.Winning? || h == Finished(true) then 1 else 0
  }

  ghost predicate ReadInv(s: TimedRead) {
    && |s.promise| == Answered(s.read) + Answered(s.timeout)
    && Claimed(s.read) + Claimed(s.timeout) == (if s.completed then 1 else 0)
    && (s.read.Finished? ==> s.completed)
    && (s.timer.Cancelled? ==> s.read == Finished(true))
    && (s.timeout == Finished(false) ==> s.completed)
    && (s.promise != [] ==> (s.promise[0].TimedOut? <==> s.timeout == Finished(true)))
    && |s.outcome| == (if s.read.NotRun? then 0 else 1) && (s.outcome != [] ==> !s.outcome[0].TimedOut?)
    && (s.read == Finished(true) ==> s.promise == s.outcome)
  }

  lemma {:induction false} ReadRunInv(states: seq<TimedRead>, steps: seq<ReadStep>, n: nat)
    requires ReadRun(states, steps) && n < |states|
    ensures ReadInv(states[n])
  {
    if n > 0 {
      ReadRunInv(states, steps, n - 1);
    }
  }

  /** The promise is set at most once, and exactly once when both handlers have run. */
  lemma PromiseSetOnce(states: seq<TimedRead>, steps: seq<ReadStep>, n: nat)
    requires ReadRun(states, steps) && n < |states|
    ensures |states[n].promise| <= 1
    ensures states[n].read.Finished? && states[n].timeout.Finished? ==> |states[n].promise| == 1
    ensures states[n].promise == [TimedOut] <==> states[n].timeout == Finished(true)
    ensures states[n].promise != [] && states[n].promise != [TimedOut] ==> states[n].promise == states[n].outcome
  {
    ReadRunInv(states, steps, n);
  }
}
