/**
 When a best-effort timer gets on: exactly when its next handler is accepted, and when a whole firing completes,
 whatever happens between its offers.
 */
module Firings {
  import opened LuaEngine
  import opened Timers

  /** The state has taken every call ever issued to it for this event, whoever issued it. */
  predicate EventTaken(s: State, id: string, eventName: string) {
    forall t | 0 <= t < |s.issued| && s.issued[t].stateId == id && s.issued[t].eventName == eventName :: t in s.taken
  }

  lemma PendingIffNotTaken(s: State, id: string, eventName: string)
    requires QueuesOk(s) && Conserved(s)
    ensures PendingFor(s.issued, Queue(s, id), eventName) <==> !EventTaken(s, id, eventName)
  {
    var queue := Queue(s, id);
    if PendingFor(s.issued, queue, eventName) {
      var i :| 0 <= i < |queue| && queue[i] < |s.issued| && s.issued[queue[i]].eventName == eventName;
      assert OrderedQueue(s.issued, s.queues[id], id);
      assert queue[i] in Queue(s, s.issued[queue[i]].stateId);
    }
    if !EventTaken(s, id, eventName) {
      var t :| 0 <= t < |s.issued| && s.issued[t].stateId == id && s.issued[t].eventName == eventName && t !in s.taken;
      var i :| 0 <= i < |queue| && queue[i] == t;
    }
  }

  /** The next handler is accepted just when no earlier call for the event is still waiting. */
  lemma AcceptedIff(s: State)
    requires Inv(s) && s.pass.Firing? && s.pass.before.strategy.BestEffort? && |s.pass.accepted| < |s.pass.handlers|
    ensures Can(s, Offer)
    ensures Next(s, Offer).pass.Firing? <==> EventTaken(s, s.pass.before.stateId, s.pass.before.eventName)
  {
    PendingIffNotTaken(s, s.pass.before.stateId, s.pass.before.eventName);
  }

  ghost predicate NoOffers(steps: seq<Step>) {
    forall i | 0 <= i < |steps| :: !steps[i].Offer?
  }

  lemma {:induction false} FiringWaits(s: State, steps: seq<Step>)
    requires Inv(s) && s.pass.Firing? && NoOffers(steps)
    ensures
      var n := Run(s, steps);
      Inv(n) && n.pass == s.pass && n.timers == s.timers
    decreases |steps|
  {
    if steps != [] {
      if Can(s, steps[0]) {
        StepPreserves(s, steps[0]);
        FiringWaits(Next(s, steps[0]), steps[1..]);
      } else {
        FiringWaits(s, steps[1..]);
      }
    }
  }

  /** The firing as it goes on: other steps, an offer, other steps, an offer, until it is over. */
  ghost function Fire(s: State, gaps: seq<seq<Step>>): State
    decreases |gaps|
  {
    if gaps == [] || !s.pass.Firing? then s
    else
      var m := Run(s, gaps[0]);
      if Can(m, Offer) then Fire(Next(m, Offer), gaps[1..]) else m
  }

  /** Whenever a handler is offered, every call for the event issued so far has been taken. */
  ghost predicate TakenInTime(s: State, gaps: seq<seq<Step>>)
    decreases |gaps|
  {
    s.pass.Firing? && |s.pass.accepted| < |s.pass.handlers| && gaps != [] ==>
      var m := Run(s, gaps[0]);
      && EventTaken(m, s.pass.before.stateId, s.pass.before.eventName)
      && Can(m, Offer) && TakenInTime(Next(m, Offer), gaps[1..])
  }

  /** The firing is over and has come to this. */
  predicate Over(p: Pass, n: State, completes: bool)
    requires p.Firing?
  {
    && n.pass == Walking(p.index + 1) && p.index < |n.timers| && |n.fired| > 0
    && var f := n.fired[|n.fired| - 1];
    && f.before == p.before && f.handlers == p.handlers && f.after == n.timers[p.index]
    && (|f.accepted| == |f.handlers| <==> completes)
    && f.after == p.before.(lastCompletion := if completes then p.reset else p.before.lastCompletion)
  }

  lemma OfferEnds(s: State)
    requires Inv(s) && s.pass.Firing? && Can(s, Offer) && !Next(s, Offer).pass.Firing?
    ensures Over(s.pass, Next(s, Offer), |s.pass.accepted| == |s.pass.handlers|)
  {
    assert Next(s, Offer).fired[|s.fired|].accepted == s.pass.accepted;
  }

  lemma OfferGoesOn(s: State)
    requires s.pass.Firing? && Can(s, Offer) && Next(s, Offer).pass.Firing?
    ensures |s.pass.accepted| < |s.pass.handlers|
    ensures Next(s, Offer).pass == s.pass.(accepted := s.pass.accepted + [|s.issued|])
  {
  }

  lemma OverIgnoresAccepted(p: Pass, q: Pass, n: State, completes: bool)
    requires p.Firing? && q.Firing? && q == p.(accepted := q.accepted) && Over(q, n, completes)
    ensures Over(p, n, completes)
  {
  }

  /**
   A firing of a best-effort timer, whatever happens between its offers, accepts all its handlers and advances the
   timer just when its state takes every call in time; otherwise the timer is left as it was, still expired.
   */
  lemma {:induction false} FiringCompletesIff(s: State, gaps: seq<seq<Step>>)
    requires Inv(s) && s.pass.Firing? && s.pass.before.strategy.BestEffort?
    requires |gaps| == |s.pass.handlers| - |s.pass.accepted| + 1
    requires forall i | 0 <= i < |gaps| :: NoOffers(gaps[i])
    ensures Over(s.pass, Fire(s, gaps), TakenInTime(s, gaps))
    decreases |gaps|
  {
    var m := Run(s, gaps[0]);
    FiringWaits(s, gaps[0]);
    if |s.pass.accepted| < |s.pass.handlers| {
      AcceptedIff(m);
    }
    var n := Next(m, Offer);
    if n.pass.Firing? {
      StepPreserves(m, Offer);
      OfferGoesOn(m);
      FiringCompletesIff(n, gaps[1..]);
      OverIgnoresAccepted(s.pass, n.pass, Fire(s, gaps), TakenInTime(s, gaps));
    } else {
      OfferEnds(m);
    }
  }

  lemma {:induction false} TicketWaits(s: State, steps: seq<Step>, t: Ticket)
    requires Inv(s) && t < |s.issued| && t !in s.taken
    requires forall i | 0 <= i < |steps| :: steps[i] != Take(s.issued[t].stateId)
    ensures
      var n := Run(s, steps);
      t < |n.issued| && n.issued[t] == s.issued[t] && t !in n.taken
    decreases |steps|
  {
    if steps != [] {
      if Can(s, steps[0]) {
        StepPreserves(s, steps[0]);
        TicketStays(s, steps[0], t);
        TicketWaits(Next(s, steps[0]), steps[1..], t);
      } else {
        TicketWaits(s, steps[1..], t);
      }
    }
  }

  lemma TicketStays(s: State, step: Step, t: Ticket)
    requires Inv(s) && Can(s, step) && t < |s.issued| && t !in s.taken && step != Take(s.issued[t].stateId)
    ensures
      var n := Next(s, step);
      t < |n.issued| && n.issued[t] == s.issued[t] && t !in n.taken
  {
    if step.Take? {
      assert OrderedQueue(s.issued, s.queues[step.taker], step.taker);
    }
  }

  /**
   In particular, while any call for the event waits and the state takes no call, the next handler is refused and
   the timer stays expired: a second handler starves unless its state is quicker than the two offers.
   */
  lemma NextHandlerRefused(s: State, between: seq<Step>, t: Ticket)
    requires Inv(s) && s.pass.Firing? && s.pass.before.strategy.BestEffort? && |s.pass.accepted| < |s.pass.handlers|
    requires t < |s.issued| && t !in s.taken
    requires s.issued[t].stateId == s.pass.before.stateId && s.issued[t].eventName == s.pass.before.eventName
    requires NoOffers(between) && forall i | 0 <= i < |between| :: between[i] != Take(s.pass.before.stateId)
    ensures
      var m := Run(s, between);
      && m.pass == s.pass && s.pass.index < |m.timers|
      && Next(m, Offer).pass == Walking(s.pass.index + 1)
      && Next(m, Offer).timers[s.pass.index] == s.pass.before
  {
    FiringWaits(s, between);
    TicketWaits(s, between, t);
    LateRefused(Run(s, between), t);
  }

  lemma LateRefused(s: State, t: Ticket)
    requires Inv(s) && s.pass.Firing? && s.pass.before.strategy.BestEffort? && |s.pass.accepted| < |s.pass.handlers|
    requires t < |s.issued| && t !in s.taken
    requires s.issued[t].stateId == s.pass.before.stateId && s.issued[t].eventName == s.pass.before.eventName
    ensures Next(s, Offer).pass == Walking(s.pass.index + 1)
    ensures Next(s, Offer).timers[s.pass.index] == s.pass.before
  {
    AcceptedIff(s);
    OfferEnds(s);
  }
}
