/**
 Whole runs of the join protocol with its handlers taken apart: exactly when a replica is wrong, how that comes about,
 and how it passes.
 */
module SplitRuns {
  import opened Json
  import opened Replication
  import opened SplitHandlers
  import opened Vehicles
  import opened Wrappers

  /*******************************************************************************
   *  Whole runs: exactly when the replica is wrong
   *******************************************************************************/

  ghost predicate FineInit(maxCars: int, f: Fine) {
    Init(maxCars, f.sys) && f.work == map[] && f.removals == map[] && !f.deaf && f.apart == map[]
  }

  ghost predicate FineRun(maxCars: int, states: seq<Fine>, steps: seq<FineStep>) {
    && |states| == |steps| + 1
    && FineInit(maxCars, states[0])
    && forall i {:trigger StepAt(maxCars, states, steps, i)} | 0 <= i < |steps| :: StepAt(maxCars, states, steps, i)
  }

  ghost predicate StepAt(maxCars: int, states: seq<Fine>, steps: seq<FineStep>, i: int)
    requires 0 <= i < |steps| < |states|
  {
    Follows(maxCars, states[i], steps[i], states[i + 1])
  }

  ghost predicate Follows(maxCars: int, f: Fine, step: FineStep, f': Fine) {
    CanFine(f, step) && f' == NextFine(maxCars, f, step)
  }

  lemma {:induction false} FineRunInv(maxCars: int, states: seq<Fine>, steps: seq<FineStep>, n: nat)
    requires FineRun(maxCars, states, steps) && n < |states|
    ensures FineInv(states[n]) && states[n].sys.joiner == states[0].sys.joiner
  {
    if n > 0 {
      FineRunInv(maxCars, states, steps, n - 1);
      assert StepAt(maxCars, states, steps, n - 1);
      FineStepPreserves(maxCars, states[n - 1], steps[n - 1]);
    }
  }

  /** Nothing that concerns the slot has been told and not done, or done and not told. */
  predicate Settled(f: Fine, k: Key) {
    !Doomed(f, k, false) && !Changing(f, k, false) && !Spawning(f, k)
  }

  predicate Drained(f: Fine) {
    f.sys.phase.Synced? && f.sys.queue == []
  }

  /** The exact condition, after any run of the finer steps. */
  lemma ReplicaDiffersIff(maxCars: int, states: seq<Fine>, steps: seq<FineStep>, n: nat, k: Key)
    requires FineRun(maxCars, states, steps) && n < |states|
    requires Drained(states[n]) && Settled(states[n], k) && k.pid != states[n].sys.joiner
    ensures Get(states[n].sys.replica, k) != View(states[n].sys.peers, k)
      <==> k in states[n].apart && states[n].apart[k] != View(states[n].sys.peers, k)
  {
    FineRunInv(maxCars, states, steps, n);
    assert SlotOk(states[n], k);
  }

  /** A visit that shows a vehicle whose change was told early, or whose spawn has not been told. */
  predicate TooEarly(f: Fine, step: FineStep, k: Key) {
    && step.Whole? && step.step.Visit? && step.step.pid == k.pid && Present(f.sys, k.pid, step.step.handle)
    && View(f.sys.peers, k).Some?
    && (Doomed(f, k, true) || Changing(f, k, true) || Spawning(f, k))
  }

  /** A spawn told when the vehicle has been removed again, or its removal told. */
  predicate TooLate(f: Fine, step: FineStep, k: Key) {
    && step.TellSpawn? && k.pid == step.pid && Spawning(f, k)
    && (Doomed(f, k, false) || View(f.sys.peers, k) != Some(f.work[k.pid].data))
  }

  /** Something told about the slot in the gap between syncing and synced. */
  predicate Missed(maxCars: int, f: Fine, step: FineStep, k: Key) {
    f.deaf && Touched(TellsPackets(maxCars, f, step), k)
  }

  predicate Touched(ps: seq<Packet>, k: Key) {
    k in KeysOf(ps)
  }

  lemma StaysInStep(maxCars: int, f: Fine, step: FineStep, k: Key)
    requires FineInv(f) && CanFine(f, step) && k !in f.apart
    requires !TooEarly(f, step, k) && !TooLate(f, step, k) && !Missed(maxCars, f, step, k)
    ensures k !in NextFine(maxCars, f, step).apart
  {
    if step.Whole? && step.step.Visit? && Present(f.sys, step.step.pid, step.step.handle) && k.pid == step.step.pid {
      LookupIffId(f.sys.peers[k.pid].cars.vehicles, k.vid);
    }
    if step.TellSpawn? && Spawning(f, k) && k.pid == step.pid {
      var core := Core(maxCars, f, step);
      assert forall r, early :: Hits(core.sys, r, k, early) <==> Hits(f.sys, r, k, early);
      assert Doomed(core, k, false) <==> Doomed(f, k, false);
    }
  }

  /** A slot to which none of the three ever happens is right, however the handlers interleave. */
  lemma {:induction false} InStepUnless(maxCars: int, states: seq<Fine>, steps: seq<FineStep>, n: nat, k: Key)
    requires FineRun(maxCars, states, steps) && n < |states|
    requires forall i | 0 <= i < n ::
      !TooEarly(states[i], steps[i], k) && !TooLate(states[i], steps[i], k) && !Missed(maxCars, states[i], steps[i], k)
    ensures k !in states[n].apart
    ensures Drained(states[n]) && Settled(states[n], k) && k.pid != states[n].sys.joiner ==>
      Get(states[n].sys.replica, k) == View(states[n].sys.peers, k)
  {
    if n > 0 {
      InStepUnless(maxCars, states, steps, n - 1, k);
      FineRunInv(maxCars, states, steps, n - 1);
      assert StepAt(maxCars, states, steps, n - 1);
      StaysInStep(maxCars, states[n - 1], steps[n - 1], k);
    }
    if Drained(states[n]) && Settled(states[n], k) && k.pid != states[n].sys.joiner {
      ReplicaDiffersIff(maxCars, states, steps, n, k);
    }
  }

  /*******************************************************************************
   *  How a slot comes right again
   *******************************************************************************/

  /** A synced joiner's slot that is out of step follows what is told. */
  lemma ApartFollows(maxCars: int, f: Fine, step: FineStep, k: Key)
    requires CanFine(f, step) && f.sys.phase.Synced? && !f.deaf && k in f.apart
    ensures
      var f' := NextFine(maxCars, f, step);
      && f'.sys.phase.Synced? && !f'.deaf && k in f'.apart
      && f'.apart[k] == Replay(f.apart[k], k, TellsPackets(maxCars, f, step))
  {
    var ps := TellsPackets(maxCars, f, step);
    if step.TellSpawn? {
      var data := f.work[step.pid].data;
      assert ps == [Packet(step.pid, Spawn(f.work[step.pid].vid, data))];
      if k == Key(step.pid, f.work[step.pid].vid) {
        SpawnForces(k, [], ps, data, f.apart[k]);
      }
    }
  }

  /** What is promised follows what is told, unless a spawn is told too late. */
  lemma PromisedFollows(maxCars: int, f: Fine, step: FineStep, k: Key)
    requires FineInv(f) && CanFine(f, step) && !TooLate(f, step, k)
    ensures Promised(NextFine(maxCars, f, step), k) == Replay(Promised(f, k), k, TellsPackets(maxCars, f, step))
  {
    var f', core := NextFine(maxCars, f, step), Core(maxCars, f, step);
    OnlyCore(core, f', k);
    if IsTelling(step) {
      TellingPromises(maxCars, f, step, k);
    } else {
      match step
      case Do(pid) => DoIsDone(maxCars, f, pid, k);
      case DoRemoval(ticket) => RemovalIsDone(maxCars, f, ticket, k);
      case TellSpawn(pid) => SpawnPromises(maxCars, f, pid, k);
      case _ => NothingPromised(maxCars, f, step, k);
    }
  }

  lemma SpawnPromises(maxCars: int, f: Fine, pid: int, k: Key)
    requires CanFine(f, TellSpawn(pid)) && !TooLate(f, TellSpawn(pid), k)
    ensures Promised(Core(maxCars, f, TellSpawn(pid)), k)
      == Replay(Promised(f, k), k, TellsPackets(maxCars, f, TellSpawn(pid)))
  {
    var core, ps := Core(maxCars, f, TellSpawn(pid)), TellsPackets(maxCars, f, TellSpawn(pid));
    assert forall r, early :: Hits(core.sys, r, k, early) <==> Hits(f.sys, r, k, early);
    assert ps == [Packet(pid, Spawn(f.work[pid].vid, f.work[pid].data))];
    if k == Key(pid, f.work[pid].vid) {
      SpawnForces(k, [], ps, f.work[pid].data, Promised(f, k));
    } else {
      SameOutstanding(f, core, k);
      UntouchedReplay(Promised(f, k), k, ps);
    }
  }

  lemma WholePromises(maxCars: int, f: Fine, step: Step, k: Key)
    requires FineInv(f) && CanFine(f, Whole(step))
    ensures Promised(Core(maxCars, f, Whole(step)), k) == Promised(f, k)
  {
    var core := Core(maxCars, f, Whole(step));
    if step.Join? || step.StartSync? {
      assert Seen(core, k) == Seen(f, k);
      assert forall t | t in f.removals ::
        t in core.removals && (Hits(core.sys, core.removals[t], k, false) <==> Hits(f.sys, f.removals[t], k, false));
    } else {
      OnlyCore(f, core, k);
    }
  }

  lemma NothingPromised(maxCars: int, f: Fine, step: FineStep, k: Key)
    requires FineInv(f) && CanFine(f, step)
    requires step.BeginSpawn? || step.AddCar? || step.BeginLeave? || step.StopSyncing? || step.SetSynced? || step.Whole?
    ensures Promised(Core(maxCars, f, step), k) == Promised(f, k)
  {
    var core := Core(maxCars, f, step);
    match step
    case AddCar(pid, doc, veto) =>
      AddCarUnseen(maxCars, f, pid, doc, veto, k);
      SameOutstanding(f, core, k);
    case BeginLeave(pid) => BeginLeaveSame(maxCars, f, pid, k);
    case BeginSpawn(pid) =>
      assert Seen(core, k) == Seen(f, k);
      SameOutstanding(f, core, k);
    case Whole(whole) => WholePromises(maxCars, f, whole, k);
    case _ => OnlyCore(f, core, k);
  }

  /** What each step of a run tells. */
  function AllTold(maxCars: int, states: seq<Fine>, steps: seq<FineStep>): (told: seq<seq<Packet>>)
    requires |steps| < |states|
    ensures |told| == |steps|
  {
    seq(|steps|, i requires 0 <= i < |steps| => TellsPackets(maxCars, states[i], steps[i]))
  }

  /** Everything told by the steps from i up to j. */
  function Between(told: seq<seq<Packet>>, i: nat, j: nat): seq<Packet>
    requires i <= j <= |told|
    decreases j
  {
    if i == j then [] else Between(told, i, j - 1) + told[j - 1]
  }

  predicate KeepsApart(f: Fine, f': Fine, ps: seq<Packet>, k: Key) {
    f.sys.phase.Synced? && !f.deaf && k in f.apart ==>
      f'.sys.phase.Synced? && !f'.deaf && k in f'.apart && f'.apart[k] == Replay(f.apart[k], k, ps)
  }

  predicate KeepsPromise(f: Fine, f': Fine, ps: seq<Packet>, k: Key) {
    Promised(f', k) == Replay(Promised(f, k), k, ps)
  }

  lemma {:induction false} ApartBetween(states: seq<Fine>, told: seq<seq<Packet>>, i: nat, j: nat, k: Key)
    requires i <= j <= |told| < |states|
    requires forall m | i <= m < j :: KeepsApart(states[m], states[m + 1], told[m], k)
    ensures KeepsApart(states[i], states[j], Between(told, i, j), k)
    decreases j
  {
    if i < j {
      ApartBetween(states, told, i, j - 1, k);
      if k in states[i].apart {
        ReplayAppend(states[i].apart[k], k, Between(told, i, j - 1), told[j - 1]);
      }
    }
  }

  lemma {:induction false} PromisedBetween(states: seq<Fine>, told: seq<seq<Packet>>, i: nat, j: nat, k: Key)
    requires i <= j <= |told| < |states|
    requires forall m | i <= m < j :: KeepsPromise(states[m], states[m + 1], told[m], k)
    ensures KeepsPromise(states[i], states[j], Between(told, i, j), k)
    decreases j
  {
    if i < j {
      PromisedBetween(states, told, i, j - 1, k);
      ReplayAppend(Promised(states[i], k), k, Between(told, i, j - 1), told[j - 1]);
    }
  }

  lemma RunFollows(maxCars: int, states: seq<Fine>, steps: seq<FineStep>, i: nat, j: nat, k: Key)
    requires FineRun(maxCars, states, steps) && i <= j < |states|
    requires forall m | i <= m < j :: !TooLate(states[m], steps[m], k)
    ensures
      var told := AllTold(maxCars, states, steps);
      && KeepsApart(states[i], states[j], Between(told, i, j), k)
      && KeepsPromise(states[i], states[j], Between(told, i, j), k)
  {
    var told := AllTold(maxCars, states, steps);
    forall m | i <= m < j
      ensures KeepsApart(states[m], states[m + 1], told[m], k) && KeepsPromise(states[m], states[m + 1], told[m], k)
    {
      assert StepAt(maxCars, states, steps, m);
      FineRunInv(maxCars, states, steps, m);
      StepFollows(maxCars, states[m], steps[m], states[m + 1], k);
    }
    ApartBetween(states, told, i, j, k);
    PromisedBetween(states, told, i, j, k);
  }

  lemma StepFollows(maxCars: int, f: Fine, step: FineStep, f': Fine, k: Key)
    requires FineInv(f) && Follows(maxCars, f, step, f') && !TooLate(f, step, k)
    ensures KeepsApart(f, f', TellsPackets(maxCars, f, step), k)
    ensures KeepsPromise(f, f', TellsPackets(maxCars, f, step), k)
  {
    PromisedFollows(maxCars, f, step, k);
    if f.sys.phase.Synced? && !f.deaf && k in f.apart {
      ApartFollows(maxCars, f, step, k);
    }
  }

  predicate Full(slot: Option<Json>) {
    slot.Some? && slot.value != JNull
  }

  predicate CanPaint(slot: Option<Json>) {
    slot.Some? && Paintable(slot.value)
  }

  /** Packets that bring two different slots together. */
  predicate Heals(m: Summary, a: Option<Json>, b: Option<Json>) {
    match m
    case Keep => false
    case Forced(_) => true
    case Replaced(_) => Full(a) && Full(b)
    case Repainted(paints) => CanPaint(a) && CanPaint(b) && Repaint(a.value, paints) == Repaint(b.value, paints)
  }

  lemma HealsIff(m: Summary, a: Option<Json>, b: Option<Json>)
    ensures Act(m, a) == Act(m, b) <==> a == b || Heals(m, a, b)
  {
    if m.Repainted? && CanPaint(a) && !CanPaint(b) {
      assert CanPaint(Act(m, a));
    }
    if m.Repainted? && CanPaint(b) && !CanPaint(a) {
      assert CanPaint(Act(m, b));
    }
  }

  /**
   A slot that is wrong comes right exactly when what is told about it later leaves no difference: a spawn or a delete
   always, an edit when both sides have the vehicle, a repaint hardly ever.
   */
  lemma StaysWrongIff(maxCars: int, states: seq<Fine>, steps: seq<FineStep>, i: nat, j: nat, k: Key)
    requires FineRun(maxCars, states, steps) && i <= j < |states| && k.pid != states[j].sys.joiner
    requires states[i].sys.phase.Synced? && !states[i].deaf && k in states[i].apart && Settled(states[i], k)
    requires forall m | i <= m < j :: !TooLate(states[m], steps[m], k)
    requires Drained(states[j]) && Settled(states[j], k)
    ensures
      var (held, view) := (states[i].apart[k], View(states[i].sys.peers, k));
      Get(states[j].sys.replica, k) != View(states[j].sys.peers, k)
      <==> held != view && !Heals(Summarise(k, Between(AllTold(maxCars, states, steps), i, j)), held, view)
  {
    var ps := Between(AllTold(maxCars, states, steps), i, j);
    var held, view := states[i].apart[k], View(states[i].sys.peers, k);
    RunFollows(maxCars, states, steps, i, j, k);
    ReplicaDiffersIff(maxCars, states, steps, j, k);
    ReplayIsSummary(held, k, ps);
    ReplayIsSummary(view, k, ps);
    HealsIff(Summarise(k, ps), held, view);
  }

  /*******************************************************************************
   *  The three ways to come out of step do lead to wrong replicas
   *******************************************************************************/

  /** Only one thing is outstanding, of this player, and this step does it. */
  predicate OnlyOutstanding(f: Fine, doing: FineStep, pid: int) {
    && pid in f.sys.peers
    && match doing
       case DoRemoval(ticket) =>
         && f.work == map[] && f.removals.Keys == {ticket}
         && f.removals[ticket].pid == pid && f.removals[ticket].handle == f.sys.peers[pid].handle
       case Do(worker) =>
         && worker == pid && f.removals == map[] && f.work.Keys == {pid} && !f.work[pid].Spawned?
         && (f.work[pid].Leaving? ==> f.work[pid].todo == [])
       case _ => false
  }

  /** A server with one other player, nothing queued, and the slot as it is and as it is promised. */
  ghost predicate Poised(f: Fine, doing: FineStep, k: Key, view: Option<Json>, promised: Option<Json>) {
    && f.sys.peers.Keys == {f.sys.joiner, k.pid} && k.pid != f.sys.joiner && f.sys.queue == [] && !f.deaf
    && OnlyOutstanding(f, doing, k.pid)
    && View(f.sys.peers, k) == view && Promised(f, k) == promised
  }

  lemma StartPoises(maxCars: int, f: Fine, doing: FineStep, k: Key, view: Option<Json>, promised: Option<Json>)
    returns (f': Fine)
    requires Poised(f, doing, k, view, promised) && f.sys.phase.Joining? && FineInv(f)
    ensures Follows(maxCars, f, Whole(StartSync), f') && FineInv(f')
    ensures Poised(f', doing, k, view, promised) && f'.sys.replica == map[] && f'.sys.peers == f.sys.peers
    ensures f'.sys.phase == Syncing(map[k.pid := f.sys.peers[k.pid].handle])
  {
    f' := NextFine(maxCars, f, Whole(StartSync));
    FineStepPreserves(maxCars, f, Whole(StartSync));
    assert forall t | t in f.removals ::
      t in f'.removals && (Hits(f'.sys, f'.removals[t], k, false) <==> Hits(f.sys, f.removals[t], k, false));
  }

  lemma VisitPoises(
    maxCars: int, f: Fine, doing: FineStep, k: Key, view: Option<Json>, promised: Option<Json>, handle: nat)
    returns (f': Fine)
    requires Poised(f, doing, k, view, promised) && f.sys.replica == map[] && Present(f.sys, k.pid, handle)
    requires f.sys.phase == Syncing(map[k.pid := handle]) && FineInv(f)
    ensures Follows(maxCars, f, Whole(Visit(k.pid, handle)), f') && FineInv(f')
    ensures Poised(f', doing, k, view, promised) && Get(f'.sys.replica, k) == view
    ensures f'.sys.phase == Syncing(map[])
  {
    f' := NextFine(maxCars, f, Whole(Visit(k.pid, handle)));
    FineStepPreserves(maxCars, f, Whole(Visit(k.pid, handle)));
    VisitShows(maxCars, f, handle, k);
    OnlyCore(f, f', k);
    assert map[k.pid := handle] - {k.pid} == map[];
  }

  lemma DoingSettles(maxCars: int, f: Fine, doing: FineStep, k: Key, view: Option<Json>, promised: Option<Json>)
    returns (f': Fine)
    requires Poised(f, doing, k, view, promised) && f.sys.phase == Syncing(map[]) && FineInv(f)
    ensures Follows(maxCars, f, doing, f')
    ensures View(f'.sys.peers, k) == promised && f'.sys.phase == Syncing(map[]) && f'.sys.queue == [] && !f'.deaf
    ensures f'.sys.replica == f.sys.replica
  {
    f' := NextFine(maxCars, f, doing);
    var core := Core(maxCars, f, doing);
    if doing.DoRemoval? {
      RemovalIsDone(maxCars, f, doing.ticket, k);
    } else {
      DoIsDone(maxCars, f, k.pid, k);
    }
    assert core.removals == map[] && core.work == map[];
    assert Promised(core, k) == View(core.sys.peers, k);
  }

  lemma SwitchSettles(maxCars: int, f: Fine) returns (f1: Fine, f2: Fine)
    requires f.sys.phase == Syncing(map[]) && f.sys.queue == [] && !f.deaf
    ensures Follows(maxCars, f, StopSyncing, f1) && Follows(maxCars, f1, SetSynced, f2)
    ensures Drained(f2) && !f2.deaf && f2.sys.replica == f.sys.replica && f2.sys.peers == f.sys.peers
  {
    f1 := NextFine(maxCars, f, StopSyncing);
    f2 := NextFine(maxCars, f1, SetSynced);
  }

  lemma OneMore(maxCars: int, states: seq<Fine>, steps: seq<FineStep>, step: FineStep, f': Fine)
    requires FineRun(maxCars, states, steps) && Follows(maxCars, states[|steps|], step, f')
    ensures FineRun(maxCars, states + [f'], steps + [step])
  {
    var states', steps' := states + [f'], steps + [step];
    forall i | 0 <= i < |steps'| ensures StepAt(maxCars, states', steps', i) {
      if i < |steps| {
        assert StepAt(maxCars, states, steps, i);
      }
    }
  }

  lemma SyncRun(
    maxCars: int, states0: seq<Fine>, steps0: seq<FineStep>, doing: FineStep, k: Key,
    view: Option<Json>, promised: Option<Json>)
    returns (states: seq<Fine>, steps: seq<FineStep>)
    requires FineRun(maxCars, states0, steps0)
    requires states0[|steps0|].sys.phase.Joining? && Poised(states0[|steps0|], doing, k, view, promised)
    ensures FineRun(maxCars, states, steps)
    ensures
      var visit := Whole(Visit(k.pid, states0[|steps0|].sys.peers[k.pid].handle));
      steps == steps0 + [Whole(StartSync)] + [visit] + [doing]
    ensures
      var g := states[|steps|];
      && View(g.sys.peers, k) == promised && Get(g.sys.replica, k) == view
      && g.sys.phase == Syncing(map[]) && g.sys.queue == [] && !g.deaf
  {
    var handle := states0[|steps0|].sys.peers[k.pid].handle;
    FineRunInv(maxCars, states0, steps0, |steps0|);
    var f2 := StartPoises(maxCars, states0[|steps0|], doing, k, view, promised);
    var f3 := VisitPoises(maxCars, f2, doing, k, view, promised, handle);
    var f4 := DoingSettles(maxCars, f3, doing, k, view, promised);
    OneMore(maxCars, states0, steps0, Whole(StartSync), f2);
    OneMore(maxCars, states0 + [f2], steps0 + [Whole(StartSync)], Whole(Visit(k.pid, handle)), f3);
    states, steps := states0 + [f2] + [f3], steps0 + [Whole(StartSync)] + [Whole(Visit(k.pid, handle))];
    OneMore(maxCars, states, steps, doing, f4);
    states, steps := states + [f4], steps + [doing];
  }

  lemma SwitchRun(maxCars: int, states0: seq<Fine>, steps0: seq<FineStep>) returns (states: seq<Fine>)
    requires FineRun(maxCars, states0, steps0)
    requires
      var f := states0[|steps0|];
      f.sys.phase == Syncing(map[]) && f.sys.queue == [] && !f.deaf
    ensures FineRun(maxCars, states, steps0 + [StopSyncing] + [SetSynced])
    ensures
      var f, g := states0[|steps0|], states[|steps0| + 2];
      Drained(g) && !g.deaf && g.sys.replica == f.sys.replica && g.sys.peers == f.sys.peers
  {
    var f5, f6 := SwitchSettles(maxCars, states0[|steps0|]);
    OneMore(maxCars, states0, steps0, StopSyncing, f5);
    OneMore(maxCars, states0 + [f5], steps0 + [StopSyncing], SetSynced, f6);
    states := states0 + [f5] + [f6];
  }

  /**
   After any run in which one edit, paint, delete, removal or leaving of the only other player has been told before
   syncing begins: visited, then done, it leaves the synced and drained joiner wrong about a slot exactly when it
   changes the slot.
   */
  lemma EarlyVisitIff(maxCars: int, states0: seq<Fine>, steps0: seq<FineStep>, doing: FineStep, k: Key)
    returns (states: seq<Fine>, steps: seq<FineStep>)
    requires FineRun(maxCars, states0, steps0) && states0[|steps0|].sys.phase.Joining?
    requires
      var f := states0[|steps0|];
      f.sys.peers.Keys == {f.sys.joiner, k.pid} && k.pid != f.sys.joiner && OnlyOutstanding(f, doing, k.pid)
    ensures FineRun(maxCars, states, steps)
    ensures
      var visit := Whole(Visit(k.pid, states0[|steps0|].sys.peers[k.pid].handle));
      steps == steps0 + [Whole(StartSync)] + [visit] + [doing] + [StopSyncing] + [SetSynced]
    ensures
      var f, g := states0[|steps0|], states[|steps|];
      && Drained(g) && !g.deaf
      && (Get(g.sys.replica, k) != View(g.sys.peers, k) <==> Promised(f, k) != View(f.sys.peers, k))
  {
    var f := states0[|steps0|];
    FineRunInv(maxCars, states0, steps0, |steps0|);
    states, steps := SyncRun(maxCars, states0, steps0, doing, k, View(f.sys.peers, k), Promised(f, k));
    states := SwitchRun(maxCars, states, steps);
    steps := steps + [StopSyncing] + [SetSynced];
  }

  /** What the joiner will hold once the queue is drained. */
  function Draining(f: Fine, k: Key): Option<Json> {
    Replay(Get(f.sys.replica, k), k, f.sys.queue)
  }

  /**
   A spawn told after Lua has removed the vehicle, or told its removal, leaves every synced client with a vehicle that
   the server does not have, or will not have for long.
   */
  lemma LateSpawnWrong(maxCars: int, f: Fine, pid: int, k: Key)
    requires FineInv(f) && CanFine(f, TellSpawn(pid)) && TooLate(f, TellSpawn(pid), k) && k.pid != f.sys.joiner
    requires f.sys.phase.Synced? && !f.deaf
    ensures
      var f' := NextFine(maxCars, f, TellSpawn(pid));
      && Draining(f', k) == Some(f.work[pid].data) != Promised(f', k)
      && View(f'.sys.peers, k) == View(f.sys.peers, k)
  {
    var f', core := NextFine(maxCars, f, TellSpawn(pid)), Core(maxCars, f, TellSpawn(pid));
    FineStepPreserves(maxCars, f, TellSpawn(pid));
    OnlyCore(core, f', k);
    assert forall r, early :: Hits(core.sys, r, k, early) <==> Hits(f.sys, r, k, early);
    assert Promised(core, k) == if Doomed(f, k, false) then None else View(f.sys.peers, k);
    assert SlotOk(f', k);
    if k in f.apart {
      SpawnForces(k, [], TellsPackets(maxCars, f, TellSpawn(pid)), f.work[pid].data, f.apart[k]);
    }
  }

  /** Told in the gap, to a joiner in step: wrong from then on exactly when it changes what is promised. */
  lemma MissedIff(maxCars: int, f: Fine, step: FineStep, k: Key)
    requires FineInv(f) && CanFine(f, step) && f.deaf && IsTelling(step) && k !in f.apart && k.pid != f.sys.joiner
    ensures
      var f' := NextFine(maxCars, f, step);
      Draining(f', k) != Promised(f', k)
      <==> Replay(Promised(f, k), k, TellsPackets(maxCars, f, step)) != Promised(f, k)
  {
    TellingPromises(maxCars, f, step, k);
    OnlyCore(Core(maxCars, f, step), NextFine(maxCars, f, step), k);
    assert SlotOk(f, k);
  }
}
