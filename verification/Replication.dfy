/**
 How a joining client ends up with everybody else's vehicles. Packet handlers change the server's lists
 and broadcast; a client that is syncing is sent each list as it stands when visited, while the broadcasts
 pile up in its queue and are replayed afterwards. One handler is one step.
 */
module Replication {
  import opened Json
  import opened Vehicles
  import opened Wrappers

  datatype Key = Key(pid: int, vid: int)

  /** `handle` tells apart two clients that had the same player ID one after the other. */
  datatype Peer = Peer(handle: nat, cars: CarState)

  /** `pending` holds the clients copied when syncing began that have not been visited yet. */
  datatype Phase = Joining | Syncing(pending: map<int, nat>) | Synced

  datatype System = System(
    peers: map<int, Peer>,
    nextHandle: nat,
    joiner: int,
    queue: seq<Packet>,
    replica: map<Key, Json>,
    phase: Phase)

  function View(peers: map<int, Peer>, k: Key): Option<Json> {
    if k.pid in peers then Lookup(peers[k.pid].cars.vehicles, k.vid) else None
  }

  function Get(replica: map<Key, Json>, k: Key): Option<Json> {
    if k in replica then Some(replica[k]) else None
  }

  /** The replica handles a packet as the server handles its own copy of the slot. */
  function Receive(replica: map<Key, Json>, p: Packet): map<Key, Json> {
    var k := Key(p.pid, p.op.vid);
    match Effect(Get(replica, k), p.op)
    case None => replica - {k}
    case Some(data) => replica[k := data]
  }

  function ReceiveAll(replica: map<Key, Json>, ps: seq<Packet>): map<Key, Json>
    decreases |ps|
  {
    if ps == [] then replica else ReceiveAll(Receive(replica, ps[0]), ps[1..])
  }

  /** The packets a visited client's list is sent as. */
  function SnapshotOps(vs: seq<Vehicle>): seq<VehicleOp> {
    seq(|vs|, i requires 0 <= i < |vs| => Spawn(vs[i].id, vs[i].data))
  }

  /*******************************************************************************
   *  One slot: replaying a packet list twice is replaying it once
   *******************************************************************************/

  predicate Touches(p: Packet, k: Key) {
    p.pid == k.pid && p.op.vid == k.vid
  }

  function SlotStep(slot: Option<Json>, k: Key, p: Packet): Option<Json> {
    if Touches(p, k) then Effect(slot, p.op) else slot
  }

  function Replay(slot: Option<Json>, k: Key, ps: seq<Packet>): Option<Json>
    decreases |ps|
  {
    if ps == [] then slot else Replay(SlotStep(slot, k, ps[0]), k, ps[1..])
  }

  lemma {:induction false} ReplayAppend(slot: Option<Json>, k: Key, a: seq<Packet>, b: seq<Packet>)
    ensures Replay(slot, k, a + b) == Replay(Replay(slot, k, a), k, b)
    decreases |a|
  {
    if a == [] {
      assert a + b == b;
    } else {
      assert (a + b)[1..] == a[1..] + b;
      ReplayAppend(SlotStep(slot, k, a[0]), k, a[1..], b);
    }
  }

  /** What any packet list amounts to, seen from one slot. */
  datatype Summary =
    | Keep
    | Repainted(paints: seq<Json>)
    | Replaced(config: map<string, Json>)
    | Forced(slot: Option<Json>)

  function Act(m: Summary, slot: Option<Json>): Option<Json> {
    match m
    case Keep => slot
    case Repainted(paints) =>
      if slot.Some? && Paintable(slot.value) then Some(Repaint(slot.value, paints)) else slot
    case Replaced(config) => if slot.Some? && slot.value != JNull then Some(JObj(config)) else slot
    case Forced(forced) => forced
  }

  function Then(m: Summary, op: VehicleOp): Summary {
    match op
    case Spawn(_, data) => Forced(Some(data))
    case Delete(_) => Forced(None)
    case Edit(_, config) =>
      if m.Forced? then Forced(Effect(m.slot, op))
      else if config.Some? then Replaced(config.value) else m
    case Paint(_, paints) =>
      if m.Forced? then Forced(Effect(m.slot, op))
      else if paints.None? then m
      else if m.Replaced? then
        if Paintable(JObj(m.config)) then Replaced(Repaint(JObj(m.config), paints.value).fields) else m
      else Repainted(paints.value)
  }

  lemma ThenIsEffect(m: Summary, op: VehicleOp, slot: Option<Json>)
    ensures Act(Then(m, op), slot) == Effect(Act(m, slot), op)
  {
    if op.Paint? && op.paints.Some? && m.Repainted? && slot.Some? && Paintable(slot.value) {
      var painted := Repaint(slot.value, m.paints);
      assert painted.fields["vcf"].fields["paints" := JArr(op.paints.value)]
          == slot.value.fields["vcf"].fields["paints" := JArr(op.paints.value)];
      assert Repaint(painted, op.paints.value).fields == Repaint(slot.value, op.paints.value).fields;
    }
  }

  lemma ActTwice(m: Summary, slot: Option<Json>)
    ensures Act(m, Act(m, slot)) == Act(m, slot)
  {
    if m.Repainted? {
      ThenIsEffect(m, Paint(0, Some(m.paints)), slot);
    }
  }

  function Summarise(k: Key, ps: seq<Packet>): Summary
    decreases |ps|
  {
    if ps == [] then Keep
    else
      var last := ps[|ps| - 1];
      var before := Summarise(k, ps[..|ps| - 1]);
      if Touches(last, k) then Then(before, last.op) else before
  }

  lemma {:induction false} ReplayIsSummary(slot: Option<Json>, k: Key, ps: seq<Packet>)
    ensures Replay(slot, k, ps) == Act(Summarise(k, ps), slot)
    decreases |ps|
  {
    if ps != [] {
      var before, last := ps[..|ps| - 1], ps[|ps| - 1];
      assert ps == before + [last];
      ReplayAppend(slot, k, before, [last]);
      ReplayIsSummary(slot, k, before);
      ThenIsEffect(Summarise(k, before), last.op, slot);
    }
  }

  lemma ReplayTwice(slot: Option<Json>, k: Key, ps: seq<Packet>)
    ensures Replay(Replay(slot, k, ps), k, ps) == Replay(slot, k, ps)
  {
    ReplayIsSummary(slot, k, ps);
    ReplayIsSummary(Replay(slot, k, ps), k, ps);
    ActTwice(Summarise(k, ps), slot);
  }

  /*******************************************************************************
   *  Packet lists as the handlers produce them
   *******************************************************************************/

  lemma {:induction false} UntouchedReplay(slot: Option<Json>, k: Key, ps: seq<Packet>)
    requires forall i | 0 <= i < |ps| :: !Touches(ps[i], k)
    ensures Replay(slot, k, ps) == slot
    decreases |ps|
  {
    if ps != [] {
      UntouchedReplay(slot, k, ps[1..]);
    }
  }

  /** A handler's packets do to every slot what the handler does to the server's list. */
  lemma HandlerReplay(maxCars: int, s: CarState, e: CarEvent, k: Key)
    requires CarInv(maxCars, s) && Enabled(s, e)
    ensures Lookup(CarNext(maxCars, s, e).vehicles, k.vid)
         == Replay(Lookup(s.vehicles, k.vid), k, Packets(k.pid, Broadcast(maxCars, s, e)))
  {
    var ops := Broadcast(maxCars, s, e);
    BroadcastIsMutation(maxCars, s, e);
    if ops != [] {
      ApplyOpIsEffect(s.vehicles, ops[0], k.vid);
      assert ops == [ops[0]] && Packets(k.pid, ops) == [Packet(k.pid, ops[0])];
    }
  }

  lemma {:induction false} LeaveReplay(vs: seq<Vehicle>, k: Key)
    ensures Replay(None, k, Packets(k.pid, LeaveOps(vs))) == None
    ensures Replay(Lookup(vs, k.vid), k, Packets(k.pid, LeaveOps(vs))) == None
  {
    if vs != [] {
      LeaveReplay(vs[1..], k);
      assert Packets(k.pid, LeaveOps(vs))[1..] == Packets(k.pid, LeaveOps(vs[1..]));
    }
  }

  lemma ReceiveIsSlotStep(replica: map<Key, Json>, p: Packet, k: Key)
    ensures Get(Receive(replica, p), k) == SlotStep(Get(replica, k), k, p)
  {
  }

  lemma {:induction false} ReceiveAllIsReplay(replica: map<Key, Json>, ps: seq<Packet>, k: Key)
    ensures Get(ReceiveAll(replica, ps), k) == Replay(Get(replica, k), k, ps)
    decreases |ps|
  {
    if ps != [] {
      ReceiveAllIsReplay(Receive(replica, ps[0]), ps[1..], k);
    }
  }

  lemma {:induction false} SnapshotReplay(slot: Option<Json>, vs: seq<Vehicle>, k: Key)
    requires DistinctIds(vs)
    ensures Replay(slot, k, Packets(k.pid, SnapshotOps(vs)))
         == if Lookup(vs, k.vid).Some? then Lookup(vs, k.vid) else slot
    decreases |vs|
  {
    if vs != [] {
      var rest := Packets(k.pid, SnapshotOps(vs[1..]));
      assert Packets(k.pid, SnapshotOps(vs))[1..] == rest;
      SnapshotReplay(SlotStep(slot, k, Packet(k.pid, Spawn(vs[0].id, vs[0].data))), vs[1..], k);
      if vs[0].id == k.vid {
        LookupIffId(vs[1..], k.vid);
      }
    }
  }

  /*******************************************************************************
   *  The protocol
   *******************************************************************************/

  datatype Step =
    | Handle(pid: int, event: CarEvent)
    | Join(pid: int)
    | Leave(pid: int)
    | StartSync
    | Visit(pid: int, handle: nat)
    | FinishSync
    | Deliver

  /**
   A visit finds a client from the copied set. One that was inserted but not numbered when the copy was
   made may be visited as well, once it is there.
   */
  ghost predicate Can(s: System, step: Step) {
    match step
    case Handle(pid, e) => pid in s.peers && Enabled(s.peers[pid].cars, e)
    case Join(pid) => IsOpenId(s.peers.Keys, pid)
    case Leave(pid) => pid in s.peers && pid != s.joiner && s.peers[pid].cars.spawning.None?
    case StartSync => s.phase.Joining?
    case Visit(pid, handle) =>
      && s.phase.Syncing? && pid != s.joiner
      && (Awaited(s, pid, handle) || Present(s, pid, handle))
    case FinishSync => s.phase.Syncing? && s.phase.pending == map[]
    case Deliver => s.phase.Synced? && s.queue != []
  }

  predicate Awaited(s: System, pid: int, handle: nat)
    requires s.phase.Syncing?
  {
    pid in s.phase.pending && s.phase.pending[pid] == handle
  }

  predicate Present(s: System, pid: int, handle: nat) {
    pid in s.peers && s.peers[pid].handle == handle
  }

  /** Broadcasts reach the joiner once it is syncing; edits and paints are not echoed to their sender. */
  function Heard(s: System, pid: int, ops: seq<VehicleOp>): seq<Packet> {
    if s.phase.Joining? then []
    else if pid == s.joiner && exists i | 0 <= i < |ops| :: ops[i].Edit? || ops[i].Paint? then []
    else Packets(pid, ops)
  }

  ghost function Next(maxCars: int, s: System, step: Step): System
    requires Can(s, step)
  {
    match step
    case Handle(pid, e) =>
      var peer := s.peers[pid];
      s.(peers := s.peers[pid := peer.(cars := CarNext(maxCars, peer.cars, e))],
         queue := s.queue + Heard(s, pid, Broadcast(maxCars, peer.cars, e)))
    case Join(pid) =>
      s.(peers := s.peers[pid := Peer(s.nextHandle, NEW_CLIENT)], nextHandle := s.nextHandle + 1)
    case Leave(pid) =>
      s.(peers := s.peers - {pid}, queue := s.queue + Heard(s, pid, LeaveOps(s.peers[pid].cars.vehicles)))
    case StartSync =>
      s.(phase := Syncing(map pid | pid in s.peers && pid != s.joiner :: s.peers[pid].handle))
    case Visit(pid, handle) =>
      s.(phase := Syncing(if Awaited(s, pid, handle) then s.phase.pending - {pid} else s.phase.pending),
         replica := if Present(s, pid, handle)
                    then ReceiveAll(s.replica, Packets(pid, SnapshotOps(s.peers[pid].cars.vehicles)))
                    else s.replica)
    case FinishSync => s.(phase := Synced)
    case Deliver => s.(queue := s.queue[1..], replica := Receive(s.replica, s.queue[0]))
  }

  ghost predicate Init(maxCars: int, s: System) {
    && s.phase.Joining? && s.queue == [] && s.replica == map[]
    && s.joiner in s.peers
    && WellFormed(maxCars, s)
  }

  ghost predicate WellFormed(maxCars: int, s: System) {
    && (forall pid | pid in s.peers :: CarInv(maxCars, s.peers[pid].cars) && s.peers[pid].handle < s.nextHandle)
    && (s.phase.Syncing? ==> forall pid | pid in s.phase.pending :: s.phase.pending[pid] < s.nextHandle)
  }

  /** The owner of the slot is yet to be visited. */
  predicate Unvisited(s: System, k: Key)
    requires s.phase.Syncing?
  {
    k.pid in s.phase.pending && Present(s, k.pid, s.phase.pending[k.pid])
  }

  /** What is held plus what is queued gives the server's state. */
  predicate CaughtUp(s: System, k: Key) {
    Replay(Get(s.replica, k), k, s.queue) == View(s.peers, k)
  }

  ghost predicate SlotInv(s: System, k: Key) {
    match s.phase
    case Joining => true
    case Syncing(_) =>
      && Replay(View(s.peers, k), k, s.queue) == View(s.peers, k)
      && (if Unvisited(s, k) then Get(s.replica, k) == None else CaughtUp(s, k))
    case Synced => CaughtUp(s, k)
  }

  ghost predicate Inv(maxCars: int, s: System) {
    && WellFormed(maxCars, s)
    && (s.phase.Joining? ==> s.queue == [] && s.replica == map[])
    && forall k: Key | k.pid != s.joiner :: SlotInv(s, k)
  }

  /** New packets that act on a slot as the server's own change keep it in step. */
  lemma QueuedChangeKeepsSlot(s: System, s': System, ps: seq<Packet>, k: Key)
    requires SlotInv(s, k) && !s.phase.Joining?
    requires s'.phase == s.phase && s'.replica == s.replica && s'.queue == s.queue + ps
    requires View(s'.peers, k) == Replay(View(s.peers, k), k, ps)
    requires s.phase.Syncing? && Unvisited(s, k) && !Unvisited(s', k) ==> View(s'.peers, k) == None
    requires s.phase.Syncing? && Unvisited(s', k) ==> Unvisited(s, k)
    ensures SlotInv(s', k)
  {
    ReplayAppend(Get(s.replica, k), k, s.queue, ps);
    if s.phase.Syncing? {
      ReplayAppend(View(s.peers, k), k, s.queue, ps);
      ReplayTwice(View(s.peers, k), k, s.queue + ps);
    }
  }

  lemma HandleStep(maxCars: int, s: System, pid: int, e: CarEvent, k: Key)
    requires Inv(maxCars, s) && Can(s, Handle(pid, e)) && k.pid != s.joiner
    ensures SlotInv(Next(maxCars, s, Handle(pid, e)), k)
  {
    var s' := Next(maxCars, s, Handle(pid, e));
    var ps := Heard(s, pid, Broadcast(maxCars, s.peers[pid].cars, e));
    if !s.phase.Joining? {
      if pid == k.pid {
        HandlerReplay(maxCars, s.peers[pid].cars, e, k);
      } else {
        UntouchedReplay(View(s.peers, k), k, ps);
      }
      QueuedChangeKeepsSlot(s, s', ps, k);
    }
  }

  lemma LeaveStep(maxCars: int, s: System, pid: int, k: Key)
    requires Inv(maxCars, s) && Can(s, Leave(pid)) && k.pid != s.joiner
    ensures SlotInv(Next(maxCars, s, Leave(pid)), k)
  {
    var s' := Next(maxCars, s, Leave(pid));
    var ps := Heard(s, pid, LeaveOps(s.peers[pid].cars.vehicles));
    if !s.phase.Joining? {
      if pid == k.pid {
        LeaveReplay(s.peers[pid].cars.vehicles, k);
      } else {
        UntouchedReplay(View(s.peers, k), k, ps);
      }
      QueuedChangeKeepsSlot(s, s', ps, k);
    }
  }

  lemma VisitStep(maxCars: int, s: System, pid: int, handle: nat, k: Key)
    requires Inv(maxCars, s) && Can(s, Visit(pid, handle)) && k.pid != s.joiner
    ensures SlotInv(Next(maxCars, s, Visit(pid, handle)), k)
  {
    var s' := Next(maxCars, s, Visit(pid, handle));
    if Present(s, pid, handle) {
      var vs := s.peers[pid].cars.vehicles;
      var ps := Packets(pid, SnapshotOps(vs));
      ReceiveAllIsReplay(s.replica, ps, k);
      if k.pid == pid {
        SnapshotReplay(Get(s.replica, k), vs, k);
      } else {
        UntouchedReplay(Get(s.replica, k), k, ps);
      }
    }
  }

  lemma StepPreserves(maxCars: int, s: System, step: Step)
    requires Inv(maxCars, s) && Can(s, step)
    ensures Inv(maxCars, Next(maxCars, s, step))
    ensures Next(maxCars, s, step).joiner == s.joiner
  {
    var s' := Next(maxCars, s, step);
    match step
    case Handle(pid, e) =>
      CarStepPreserves(maxCars, s.peers[pid].cars, e);
      forall k: Key | k.pid != s.joiner ensures SlotInv(s', k) { HandleStep(maxCars, s, pid, e, k); }
    case Join(pid) =>
      forall k: Key | k.pid != s.joiner ensures SlotInv(s', k) {
        assert SlotInv(s, k) && View(s'.peers, k) == View(s.peers, k);
      }
    case Leave(pid) =>
      forall k: Key | k.pid != s.joiner ensures SlotInv(s', k) { LeaveStep(maxCars, s, pid, k); }
    case StartSync =>
    case Visit(pid, handle) =>
      forall k: Key | k.pid != s.joiner ensures SlotInv(s', k) { VisitStep(maxCars, s, pid, handle, k); }
    case FinishSync =>
      forall k: Key | k.pid != s.joiner ensures SlotInv(s', k) { assert SlotInv(s, k); }
    case Deliver =>
      forall k: Key | k.pid != s.joiner ensures SlotInv(s', k) {
        assert SlotInv(s, k);
        ReceiveIsSlotStep(s.replica, s.queue[0], k);
      }
  }

  ghost predicate Run(maxCars: int, states: seq<System>, steps: seq<Step>) {
    && |states| == |steps| + 1
    && Init(maxCars, states[0])
    && forall i | 0 <= i < |steps| :: Can(states[i], steps[i]) && states[i + 1] == Next(maxCars, states[i], steps[i])
  }

  lemma {:induction false} RunInv(maxCars: int, states: seq<System>, steps: seq<Step>, n: nat)
    requires Run(maxCars, states, steps) && n < |states|
    ensures Inv(maxCars, states[n])
  {
    if n > 0 {
      RunInv(maxCars, states, steps, n - 1);
      StepPreserves(maxCars, states[n - 1], steps[n - 1]);
    }
  }

  /** Once synced, what the joiner holds and has queued always amounts to the server's state. */
  lemma JoinerKeepsUp(maxCars: int, states: seq<System>, steps: seq<Step>, n: nat, k: Key)
    requires Run(maxCars, states, steps) && n < |states|
    requires states[n].phase.Synced? && k.pid != states[n].joiner
    ensures Get(ReceiveAll(states[n].replica, states[n].queue), k) == View(states[n].peers, k)
  {
    RunInv(maxCars, states, steps, n);
    assert SlotInv(states[n], k);
    ReceiveAllIsReplay(states[n].replica, states[n].queue, k);
  }

  /** Join convergence: with the queue drained, the replica is the server's state. */
  lemma JoinConverges(maxCars: int, states: seq<System>, steps: seq<Step>, n: nat)
    requires Run(maxCars, states, steps) && n < |states|
    requires states[n].phase.Synced? && states[n].queue == []
    ensures forall k: Key | k.pid != states[n].joiner :: Get(states[n].replica, k) == View(states[n].peers, k)
  {
    forall k: Key | k.pid != states[n].joiner
      ensures Get(states[n].replica, k) == View(states[n].peers, k)
    {
      JoinerKeepsUp(maxCars, states, steps, n, k);
    }
  }
}
