/**
 The join protocol with the handlers taken apart: a change is told to the other clients at one moment and done to the
 server's list at another. Edits, paints, deletes, removals by Lua and leaving tell first, a spawn tells last. Syncing
 is switched off before synced is switched on, and nothing reaches the joiner in between.
 */
module SplitHandlers {
  import opened Json
  import opened Replication
  import opened Vehicles
  import opened Wrappers

  /**
   What a player's packet thread is in the middle of. `early` is what was told before syncing began. A leaving player's
   vehicles are told one after the other.
   */
  datatype Work =
    | Spawned(vid: int, data: Json)
    | Told(op: VehicleOp, early: bool)
    | Leaving(todo: seq<int>, told: set<int>, toldEarly: set<int>)

  /** A removal that Lua has told and not done. It acts on the client it was meant for, whoever has the ID by then. */
  datatype Removal = Removal(pid: int, handle: nat, vid: int, early: bool)

  /**
   `deaf` is the gap between syncing and synced. `apart` holds the slots in which the joiner has come out of step, and
   what it will hold there once its queue is drained.
   */
  datatype Fine = Fine(
    sys: System,
    work: map<int, Work>,
    removals: map<nat, Removal>,
    deaf: bool,
    apart: map<Key, Option<Json>>)

  datatype FineStep =
    | BeginSpawn(pid: int)
    | AddCar(pid: int, doc: Option<Json>, veto: bool)
    | TellSpawn(pid: int)
    | Tell(pid: int, event: CarEvent)
    | BeginLeave(pid: int)
    | TellLeave(pid: int)
    | Do(pid: int)
    | TellRemoval(ticket: nat, pid: int, vid: int)
    | DoRemoval(ticket: nat)
    | StopSyncing
    | SetSynced
    | Whole(step: Step)

  predicate Splits(e: CarEvent) {
    e.EditCar? || e.DeleteCar? || e.PaintCar?
  }

  predicate Idle(f: Fine, pid: int) {
    pid in f.sys.peers && pid !in f.work
  }

  predicate Removable(vs: seq<Vehicle>, vid: int) {
    Lookup(vs, vid).Some? && Lookup(vs, vid).value != JNull
  }

  /** A player's packets are handled one after the other; Lua may act at any time. */
  ghost predicate CanFine(f: Fine, step: FineStep) {
    match step
    case BeginSpawn(pid) => Idle(f, pid) && Enabled(f.sys.peers[pid].cars, SpawnBegin)
    case AddCar(pid, doc, veto) => Idle(f, pid) && Enabled(f.sys.peers[pid].cars, SpawnEnd(doc, veto))
    case TellSpawn(pid) => pid in f.work && f.work[pid].Spawned?
    case Tell(pid, e) => Idle(f, pid) && Splits(e) && Enabled(f.sys.peers[pid].cars, e)
    case BeginLeave(pid) => Idle(f, pid) && pid != f.sys.joiner && f.sys.peers[pid].cars.spawning.None?
    case TellLeave(pid) => pid in f.work && f.work[pid].Leaving? && f.work[pid].todo != []
    case Do(pid) =>
      && pid in f.sys.peers && pid in f.work && !f.work[pid].Spawned?
      && (f.work[pid].Leaving? ==> f.work[pid].todo == [])
    case TellRemoval(ticket, pid, vid) =>
      ticket !in f.removals && pid in f.sys.peers && Removable(f.sys.peers[pid].cars.vehicles, vid)
    case DoRemoval(ticket) => ticket in f.removals
    case StopSyncing => Can(f.sys, FinishSync)
    case SetSynced => f.deaf
    case Whole(whole) =>
      && (whole.Join? || whole.StartSync? || whole.Visit? || (whole.Deliver? && !f.deaf))
      && Can(f.sys, whole)
  }

  /*******************************************************************************
   *  What is told, and what it will come to
   *******************************************************************************/

  /** The operations a step sends to the other clients, and whose. */
  function Tells(maxCars: int, f: Fine, step: FineStep): (r: (int, seq<VehicleOp>)) {
    match step
    case TellSpawn(pid) =>
      (pid, if pid in f.work && f.work[pid].Spawned? then [Spawn(f.work[pid].vid, f.work[pid].data)] else [])
    case Tell(pid, e) => (pid, if pid in f.sys.peers then Broadcast(maxCars, f.sys.peers[pid].cars, e) else [])
    case TellLeave(pid) =>
      var leaving := pid in f.work && f.work[pid].Leaving? && f.work[pid].todo != [];
      (pid, if leaving then [Delete(f.work[pid].todo[0])] else [])
    case TellRemoval(_, pid, vid) => (pid, [Delete(vid)])
    case _ => (0, [])
  }

  function TellsPackets(maxCars: int, f: Fine, step: FineStep): seq<Packet> {
    Packets(Tells(maxCars, f, step).0, Tells(maxCars, f, step).1)
  }

  /** The slot as the others have been told of it: a vehicle whose spawn is yet to be told is not there. */
  function Seen(f: Fine, k: Key): Option<Json> {
    if k.pid in f.work && f.work[k.pid].Spawned? && f.work[k.pid].vid == k.vid then None else View(f.sys.peers, k)
  }

  /** A removal by Lua that will reach the slot; with `early`, only those told before syncing began. */
  predicate Hits(sys: System, r: Removal, k: Key, early: bool) {
    r.pid == k.pid && r.vid == k.vid && Present(sys, r.pid, r.handle) && (early ==> r.early)
  }

  predicate Doomed(f: Fine, k: Key, early: bool) {
    || (k.pid in f.work && f.work[k.pid].Leaving?
        && k.vid in if early then f.work[k.pid].toldEarly else f.work[k.pid].told)
    || (k.pid in f.work && f.work[k.pid].Told? && f.work[k.pid].op == Delete(k.vid) && (early ==> f.work[k.pid].early))
    || exists ticket :: ticket in f.removals && Hits(f.sys, f.removals[ticket], k, early)
  }

  predicate Changing(f: Fine, k: Key, early: bool) {
    && k.pid in f.work && f.work[k.pid].Told? && f.work[k.pid].op.vid == k.vid
    && !f.work[k.pid].op.Delete? && (early ==> f.work[k.pid].early)
  }

  /** The slot once what has been told, or of that what was told early, is done. */
  function Afterwards(f: Fine, k: Key, early: bool): Option<Json> {
    if Doomed(f, k, early) then None
    else if Changing(f, k, early) then Effect(Seen(f, k), f.work[k.pid].op)
    else Seen(f, k)
  }

  function Promised(f: Fine, k: Key): Option<Json> {
    Afterwards(f, k, false)
  }

  /*******************************************************************************
   *  The steps
   *******************************************************************************/

  function MarkEarly(w: Work): Work {
    match w
    case Spawned(_, _) => w
    case Told(_, _) => w.(early := true)
    case Leaving(_, told, _) => w.(toldEarly := told)
  }

  function SetCars(sys: System, pid: int, cars: CarState): System
    requires pid in sys.peers
  {
    sys.(peers := sys.peers[pid := sys.peers[pid].(cars := cars)])
  }

  /** The step but for the queue and for `apart`. */
  ghost function Core(maxCars: int, f: Fine, step: FineStep): Fine
    requires CanFine(f, step)
  {
    match step
    case BeginSpawn(pid) => f.(sys := SetCars(f.sys, pid, CarNext(maxCars, f.sys.peers[pid].cars, SpawnBegin)))
    case AddCar(pid, doc, veto) =>
      var cars := f.sys.peers[pid].cars;
      f.(sys := SetCars(f.sys, pid, CarNext(maxCars, cars, SpawnEnd(doc, veto))),
         work := if Broadcast(maxCars, cars, SpawnEnd(doc, veto)) == [] then f.work
                 else f.work[pid := Spawned(cars.spawning.value, doc.value)])
    case TellSpawn(pid) => f.(work := f.work - {pid})
    case Tell(pid, e) =>
      var cars := f.sys.peers[pid].cars;
      f.(sys := SetCars(f.sys, pid, cars.(unicycleId := CarNext(maxCars, cars, e).unicycleId)),
         work := f.work[pid := Told(Broadcast(maxCars, cars, e)[0], false)])
    case BeginLeave(pid) =>
      var vs := f.sys.peers[pid].cars.vehicles;
      f.(work := f.work[pid := Leaving(seq(|vs|, i requires 0 <= i < |vs| => vs[i].id), {}, {})])
    case TellLeave(pid) =>
      var w := f.work[pid];
      f.(work := f.work[pid := w.(todo := w.todo[1..], told := w.told + {w.todo[0]})])
    case Do(pid) =>
      var cars, work := f.sys.peers[pid].cars, f.work[pid];
      f.(sys := if work.Leaving? then f.sys.(peers := f.sys.peers - {pid})
                else SetCars(f.sys, pid, cars.(vehicles := ApplyOp(cars.vehicles, work.op))),
         work := f.work - {pid})
    case TellRemoval(ticket, pid, vid) =>
      f.(removals := f.removals[ticket := Removal(pid, f.sys.peers[pid].handle, vid, false)])
    case DoRemoval(ticket) =>
      var r := f.removals[ticket];
      f.(sys := if Present(f.sys, r.pid, r.handle)
                then SetCars(f.sys, r.pid,
                             f.sys.peers[r.pid].cars.(vehicles := DeleteFirst(f.sys.peers[r.pid].cars.vehicles, r.vid)))
                else f.sys,
         removals := f.removals - {ticket})
    case StopSyncing => f.(sys := Next(maxCars, f.sys, FinishSync), deaf := true)
    case SetSynced => f.(deaf := false)
    case Whole(whole) =>
      if whole.StartSync? then
        f.(sys := Next(maxCars, f.sys, whole),
           work := map pid | pid in f.work :: MarkEarly(f.work[pid]),
           removals := map ticket | ticket in f.removals :: f.removals[ticket].(early := true))
      else f.(sys := Next(maxCars, f.sys, whole))
  }

  function KeysOf(ps: seq<Packet>): set<Key> {
    set p | p in ps :: Key(p.pid, p.op.vid)
  }

  /** The vehicles a visit shows although their change or removal was told early, or their spawn has not been told. */
  function Unsettled(f: Fine, pid: int): set<Key> {
    if pid in f.sys.peers then
      set v | v in f.sys.peers[pid].cars.vehicles
              && (Doomed(f, Key(pid, v.id), true) || Changing(f, Key(pid, v.id), true) || Spawning(f, Key(pid, v.id)))
        :: Key(pid, v.id)
    else {}
  }

  predicate Spawning(f: Fine, k: Key) {
    k.pid in f.work && f.work[k.pid].Spawned? && f.work[k.pid].vid == k.vid
  }

  /**
   Where the joiner comes out of step. In the gap it misses what is told. A visit shows what is unsettled. A spawn may
   be told when the vehicle has been removed again, or is about to be.
   */
  ghost function Apart(maxCars: int, f: Fine, step: FineStep, f': Fine): map<Key, Option<Json>>
    requires CanFine(f, step)
  {
    var ps := TellsPackets(maxCars, f, step);
    if f.sys.phase.Joining? then f.apart
    else if ps != [] && f.deaf then
      map k | k in f.apart.Keys + KeysOf(ps) :: if k in f.apart then f.apart[k] else Promised(f, k)
    else if ps != [] then
      var followed := map k | k in f.apart :: Replay(f.apart[k], k, ps);
      if step.TellSpawn? && Promised(f', Key(step.pid, f.work[step.pid].vid)) != Some(f.work[step.pid].data)
      then followed[Key(step.pid, f.work[step.pid].vid) := Some(f.work[step.pid].data)]
      else followed
    else if step.Whole? && step.step.Visit? && Present(f.sys, step.step.pid, step.step.handle) then
      map k | k in f.apart.Keys + Unsettled(f, step.step.pid) ::
        if k.pid == step.step.pid && View(f.sys.peers, k).Some? then Replay(View(f.sys.peers, k), k, f.sys.queue)
        else if k in f.apart then f.apart[k] else None
    else f.apart
  }

  ghost function NextFine(maxCars: int, f: Fine, step: FineStep): Fine
    requires CanFine(f, step)
  {
    var core := Core(maxCars, f, step);
    var (pid, ops) := Tells(maxCars, f, step);
    core.(sys := if f.deaf || ops == [] then core.sys
                 else core.sys.(queue := core.sys.queue + Heard(f.sys, pid, ops)),
          apart := Apart(maxCars, f, step, core))
  }

  /*******************************************************************************
   *  What every run keeps
   *******************************************************************************/

  ghost predicate CarsOk(cars: CarState) {
    DistinctIds(cars.vehicles) && (cars.spawning.Some? ==> cars.spawning.value !in Ids(cars.vehicles))
  }

  ghost predicate ListsOk(sys: System) {
    && (forall pid | pid in sys.peers :: CarsOk(sys.peers[pid].cars) && sys.peers[pid].handle < sys.nextHandle)
    && (sys.phase.Syncing? ==> forall pid | pid in sys.phase.pending :: sys.phase.pending[pid] < sys.nextHandle)
  }

  /** A leaving player's vehicles have been told, or are going to be. */
  ghost predicate AllListed(w: Work, vs: seq<Vehicle>)
    requires w.Leaving?
  {
    forall vid | vid in Ids(vs) :: vid in w.told || vid in w.todo
  }

  ghost predicate WorkOk(f: Fine) {
    && f.work.Keys <= f.sys.peers.Keys
    && (forall pid | pid in f.work ::
          && f.sys.peers[pid].cars.spawning.None?
          && (f.work[pid].Told? ==> !f.work[pid].op.Spawn?)
          && (f.work[pid].Leaving? ==> pid != f.sys.joiner && AllListed(f.work[pid], f.sys.peers[pid].cars.vehicles)))
    && forall ticket | ticket in f.removals :: f.removals[ticket].handle < f.sys.nextHandle
  }

  predicate Waits(f: Fine, k: Key) {
    f.sys.phase.Syncing? && Unvisited(f.sys, k)
  }

  /** What the joiner will hold once it has been sent everything: what is promised, unless it is out of step. */
  function Held(f: Fine, k: Key): Option<Json> {
    if k in f.apart then f.apart[k] else Promised(f, k)
  }

  ghost predicate SlotOk(f: Fine, k: Key) {
    && (f.sys.phase.Syncing? && k !in f.apart ==> Replay(Afterwards(f, k, true), k, f.sys.queue) == Promised(f, k))
    && (Waits(f, k) ==>
          Get(f.sys.replica, k) == None && (k in f.apart ==> Summarise(k, f.sys.queue) == Forced(f.apart[k])))
    && (!Waits(f, k) ==> Replay(Get(f.sys.replica, k), k, f.sys.queue) == Held(f, k))
  }

  ghost predicate FineInv(f: Fine) {
    && ListsOk(f.sys) && WorkOk(f)
    && (f.deaf ==> f.sys.phase.Synced?)
    && (f.sys.phase.Joining? ==> f.sys.queue == [] && f.sys.replica == map[] && f.apart == map[])
    && (!f.sys.phase.Joining? ==> forall k: Key | k.pid != f.sys.joiner :: SlotOk(f, k))
  }

  /*******************************************************************************
   *  What telling and doing come to
   *******************************************************************************/

  predicate IsTelling(step: FineStep) {
    step.Tell? || step.TellLeave? || step.TellRemoval?
  }

  lemma DoomedBy(f: Fine, f': Fine, k: Key, early: bool)
    requires f'.sys.peers.Keys == f.sys.peers.Keys
    requires forall pid | pid in f.sys.peers :: f'.sys.peers[pid].handle == f.sys.peers[pid].handle
    requires f'.removals == f.removals
    requires k.pid in f'.work <==> k.pid in f.work
    requires k.pid in f.work ==> f'.work[k.pid] == f.work[k.pid]
    ensures Doomed(f', k, early) <==> Doomed(f, k, early)
  {
  }

  /** Telling an edit, paint or delete. */
  lemma TellPromises(maxCars: int, f: Fine, pid: int, e: CarEvent, k: Key)
    requires WorkOk(f) && CanFine(f, Tell(pid, e))
    ensures
      var f' := Core(maxCars, f, Tell(pid, e));
      && Promised(f', k) == Replay(Promised(f, k), k, TellsPackets(maxCars, f, Tell(pid, e)))
      && Afterwards(f', k, true) == Afterwards(f, k, true)
  {
    var f' := Core(maxCars, f, Tell(pid, e));
    var ps := TellsPackets(maxCars, f, Tell(pid, e));
    assert ps[1..] == [];
    assert View(f'.sys.peers, k) == View(f.sys.peers, k);
    assert forall r, early :: Hits(f'.sys, r, k, early) <==> Hits(f.sys, r, k, early);
    assert Replay(Promised(f, k), k, ps) == SlotStep(Promised(f, k), k, ps[0]);
  }

  lemma LeavePromises(maxCars: int, f: Fine, pid: int, k: Key)
    requires WorkOk(f) && CanFine(f, TellLeave(pid))
    ensures
      var f' := Core(maxCars, f, TellLeave(pid));
      && Promised(f', k) == Replay(Promised(f, k), k, TellsPackets(maxCars, f, TellLeave(pid)))
      && Afterwards(f', k, true) == Afterwards(f, k, true)
  {
    var f' := Core(maxCars, f, TellLeave(pid));
    var ps := TellsPackets(maxCars, f, TellLeave(pid));
    assert ps == [Packet(pid, Delete(f.work[pid].todo[0]))] && ps[1..] == [];
    assert Replay(Promised(f, k), k, ps) == SlotStep(Promised(f, k), k, ps[0]);
    assert forall r, early :: Hits(f'.sys, r, k, early) <==> Hits(f.sys, r, k, early);
  }

  lemma RemovalPromises(maxCars: int, f: Fine, ticket: nat, pid: int, vid: int, k: Key)
    requires WorkOk(f) && CanFine(f, TellRemoval(ticket, pid, vid))
    ensures
      var f' := Core(maxCars, f, TellRemoval(ticket, pid, vid));
      && Promised(f', k) == Replay(Promised(f, k), k, TellsPackets(maxCars, f, TellRemoval(ticket, pid, vid)))
      && Afterwards(f', k, true) == Afterwards(f, k, true)
  {
    var f' := Core(maxCars, f, TellRemoval(ticket, pid, vid));
    var ps := TellsPackets(maxCars, f, TellRemoval(ticket, pid, vid));
    assert ps == [Packet(pid, Delete(vid))] && ps[1..] == [];
    assert Replay(Promised(f, k), k, ps) == SlotStep(Promised(f, k), k, ps[0]);
    assert forall t | t in f.removals :: t in f'.removals && f'.removals[t] == f.removals[t];
    if k == Key(pid, vid) {
      assert Hits(f'.sys, f'.removals[ticket], k, false);
    }
  }

  /** Doing what was told changes nothing promised; what early work leaves stays, or becomes what is promised. */
  ghost predicate Done(f: Fine, f': Fine, k: Key) {
    var before, after := Afterwards(f, k, true), Afterwards(f', k, true);
    && Promised(f', k) == Promised(f, k)
    && (after == before || after == Promised(f, k) || (Promised(f, k) == None && before != None))
  }

  lemma DoIsDone(maxCars: int, f: Fine, pid: int, k: Key)
    requires ListsOk(f.sys) && WorkOk(f) && CanFine(f, Do(pid))
    ensures Done(f, Core(maxCars, f, Do(pid)), k)
  {
    var f' := Core(maxCars, f, Do(pid));
    if k.pid != pid {
      assert forall r, early :: Hits(f'.sys, r, k, early) <==> Hits(f.sys, r, k, early);
    } else if f.work[pid].Leaving? {
      LookupIffId(f.sys.peers[pid].cars.vehicles, k.vid);
    } else if f.work[pid].Told? {
      ApplyOpIsEffect(f.sys.peers[pid].cars.vehicles, f.work[pid].op, k.vid);
      assert forall r, early :: Hits(f'.sys, r, k, early) <==> Hits(f.sys, r, k, early);
    }
  }

  lemma RemovalIsDone(maxCars: int, f: Fine, ticket: nat, k: Key)
    requires ListsOk(f.sys) && WorkOk(f) && CanFine(f, DoRemoval(ticket))
    ensures Done(f, Core(maxCars, f, DoRemoval(ticket)), k)
  {
    if Hits(f.sys, f.removals[ticket], k, false) {
      RemovalEmpties(maxCars, f, ticket, k);
    } else {
      RemovalElsewhere(maxCars, f, ticket, k);
    }
  }

  lemma RemovalEmpties(maxCars: int, f: Fine, ticket: nat, k: Key)
    requires ListsOk(f.sys) && WorkOk(f) && CanFine(f, DoRemoval(ticket)) && Hits(f.sys, f.removals[ticket], k, false)
    ensures
      var f' := Core(maxCars, f, DoRemoval(ticket));
      Promised(f, k) == Promised(f', k) == Afterwards(f', k, true) == None
  {
    LookupDelete(f.sys.peers[k.pid].cars.vehicles, k.vid, k.vid);
    assert Doomed(f, k, false);
  }

  lemma RemovalElsewhere(maxCars: int, f: Fine, ticket: nat, k: Key)
    requires ListsOk(f.sys) && WorkOk(f) && CanFine(f, DoRemoval(ticket)) && !Hits(f.sys, f.removals[ticket], k, false)
    ensures
      var f' := Core(maxCars, f, DoRemoval(ticket));
      Promised(f', k) == Promised(f, k) && Afterwards(f', k, true) == Afterwards(f, k, true)
  {
    var f', r := Core(maxCars, f, DoRemoval(ticket)), f.removals[ticket];
    if Present(f.sys, r.pid, r.handle) {
      LookupDelete(f.sys.peers[r.pid].cars.vehicles, r.vid, k.vid);
    }
    assert forall r, early :: Hits(f'.sys, r, k, early) <==> Hits(f.sys, r, k, early);
    assert forall t | t in f.removals && t != ticket :: t in f'.removals && f'.removals[t] == f.removals[t];
  }

  /*******************************************************************************
   *  Every step keeps it
   *******************************************************************************/

  lemma {:induction false} ForcedFollows(k: Key, queue: seq<Packet>, ps: seq<Packet>)
    requires Summarise(k, queue).Forced?
    ensures Summarise(k, queue + ps) == Forced(Replay(Summarise(k, queue).slot, k, ps))
    decreases |ps|
  {
    if ps == [] {
      assert queue + ps == queue;
    } else {
      var init, last := ps[..|ps| - 1], ps[|ps| - 1];
      assert ps == init + [last] && (queue + ps)[..|queue + ps| - 1] == queue + init;
      ForcedFollows(k, queue, init);
      ReplayAppend(Summarise(k, queue).slot, k, init, [last]);
      var slot := Replay(Summarise(k, queue).slot, k, init);
      assert Replay(slot, k, [last]) == SlotStep(slot, k, last);
    }
  }

  lemma ForcedReplay(slot: Option<Json>, k: Key, queue: seq<Packet>)
    requires Summarise(k, queue).Forced?
    ensures Replay(slot, k, queue) == Summarise(k, queue).slot
  {
    ReplayIsSummary(slot, k, queue);
  }

  /** Nothing but a forced summary empties a slot. */
  lemma EmptiedIsForced(slot: Option<Json>, k: Key, queue: seq<Packet>)
    requires slot != None && Replay(slot, k, queue) == None
    ensures Summarise(k, queue) == Forced(None)
  {
    ReplayIsSummary(slot, k, queue);
  }

  /** What reaches the joiner does to each slot what is told; its own edits it does not hear. */
  lemma HeardIsTold(slot: Option<Json>, sys: System, pid: int, ops: seq<VehicleOp>, k: Key)
    requires k.pid != sys.joiner && !sys.phase.Joining?
    ensures Replay(slot, k, Heard(sys, pid, ops)) == Replay(slot, k, Packets(pid, ops))
  {
    if pid == sys.joiner {
      UntouchedReplay(slot, k, Heard(sys, pid, ops));
      UntouchedReplay(slot, k, Packets(pid, ops));
    }
  }

  lemma QueueGrows(f: Fine, f': Fine, hs: seq<Packet>, k: Key)
    requires SlotOk(f, k)
    requires f'.sys.phase == f.sys.phase && f'.sys.replica == f.sys.replica && f'.sys.queue == f.sys.queue + hs
    requires Promised(f', k) == Replay(Promised(f, k), k, hs) && Afterwards(f', k, true) == Afterwards(f, k, true)
    requires k in f'.apart <==> k in f.apart
    requires k in f.apart ==> f'.apart[k] == Replay(f.apart[k], k, hs)
    requires Waits(f', k) <==> Waits(f, k)
    ensures SlotOk(f', k)
  {
    ReplayAppend(Get(f.sys.replica, k), k, f.sys.queue, hs);
    ReplayAppend(Afterwards(f, k, true), k, f.sys.queue, hs);
    if Waits(f, k) && k in f.apart {
      ForcedFollows(k, f.sys.queue, hs);
    }
  }

  /** The three facts about telling, for whichever kind of it. */
  lemma TellingPromises(maxCars: int, f: Fine, step: FineStep, k: Key)
    requires WorkOk(f) && CanFine(f, step) && IsTelling(step)
    ensures
      var f' := Core(maxCars, f, step);
      && Promised(f', k) == Replay(Promised(f, k), k, TellsPackets(maxCars, f, step))
      && Afterwards(f', k, true) == Afterwards(f, k, true)
  {
    match step
    case Tell(pid, e) => TellPromises(maxCars, f, pid, e, k);
    case TellLeave(pid) => LeavePromises(maxCars, f, pid, k);
    case TellRemoval(ticket, pid, vid) => RemovalPromises(maxCars, f, ticket, pid, vid, k);
  }

  /** The queue and `apart` have no part in what is promised. */
  lemma OnlyCore(f: Fine, f': Fine, k: Key)
    requires f'.sys.peers == f.sys.peers && f'.work == f.work && f'.removals == f.removals
    ensures Promised(f', k) == Promised(f, k) && Afterwards(f', k, true) == Afterwards(f, k, true)
  {
    assert forall r, early :: Hits(f'.sys, r, k, early) <==> Hits(f.sys, r, k, early);
  }

  lemma ToldKeeps(maxCars: int, f: Fine, step: FineStep, k: Key)
    requires FineInv(f) && CanFine(f, step) && IsTelling(step) && k.pid != f.sys.joiner
    requires !f.sys.phase.Joining? && !f.deaf
    ensures SlotOk(NextFine(maxCars, f, step), k)
  {
    var f', core := NextFine(maxCars, f, step), Core(maxCars, f, step);
    var (pid, ops) := Tells(maxCars, f, step);
    var ps := TellsPackets(maxCars, f, step);
    TellingPromises(maxCars, f, step, k);
    OnlyCore(core, f', k);
    HeardIsTold(Promised(f, k), f.sys, pid, ops, k);
    if k in f.apart {
      HeardIsTold(f.apart[k], f.sys, pid, ops, k);
    }
    var hs := if ops == [] then [] else Heard(f.sys, pid, ops);
    QueueGrows(f, f', hs, k);
  }

  /** In the gap the joiner hears nothing, and keeps what it was promised before. */
  lemma MissedKeeps(maxCars: int, f: Fine, step: FineStep, k: Key)
    requires FineInv(f) && CanFine(f, step) && IsTelling(step) && f.deaf && k.pid != f.sys.joiner
    ensures SlotOk(NextFine(maxCars, f, step), k)
  {
    var f', core := NextFine(maxCars, f, step), Core(maxCars, f, step);
    var ps := TellsPackets(maxCars, f, step);
    TellingPromises(maxCars, f, step, k);
    OnlyCore(core, f', k);
    if k !in KeysOf(ps) {
      UntouchedReplay(Promised(f, k), k, ps);
    }
  }

  lemma DoneKeeps(f: Fine, f': Fine, k: Key)
    requires SlotOk(f, k) && Done(f, f', k)
    requires f'.sys.phase == f.sys.phase && f'.sys.replica == f.sys.replica && f'.sys.queue == f.sys.queue
    requires f'.apart == f.apart
    requires Waits(f', k) ==> Waits(f, k)
    requires Waits(f, k) && !Waits(f', k) ==> Afterwards(f', k, true) == None
    ensures SlotOk(f', k)
  {
    var before := Afterwards(f, k, true);
    if f.sys.phase.Syncing? {
      ReplayTwice(before, k, f.sys.queue);
      if Promised(f, k) == None && before != None && k !in f.apart {
        EmptiedIsForced(before, k, f.sys.queue);
        ForcedReplay(Afterwards(f', k, true), k, f.sys.queue);
      }
      if Waits(f, k) && k in f.apart {
        ForcedReplay(None, k, f.sys.queue);
      }
    }
  }

  lemma DoKeeps(maxCars: int, f: Fine, pid: int, k: Key)
    requires FineInv(f) && CanFine(f, Do(pid)) && k.pid != f.sys.joiner && !f.sys.phase.Joining?
    ensures SlotOk(NextFine(maxCars, f, Do(pid)), k)
  {
    DoIsDone(maxCars, f, pid, k);
    OnlyCore(Core(maxCars, f, Do(pid)), NextFine(maxCars, f, Do(pid)), k);
    DoneKeeps(f, NextFine(maxCars, f, Do(pid)), k);
  }

  lemma DoRemovalKeeps(maxCars: int, f: Fine, ticket: nat, k: Key)
    requires FineInv(f) && CanFine(f, DoRemoval(ticket)) && k.pid != f.sys.joiner && !f.sys.phase.Joining?
    ensures SlotOk(NextFine(maxCars, f, DoRemoval(ticket)), k)
  {
    RemovalIsDone(maxCars, f, ticket, k);
    OnlyCore(Core(maxCars, f, DoRemoval(ticket)), NextFine(maxCars, f, DoRemoval(ticket)), k);
    DoneKeeps(f, NextFine(maxCars, f, DoRemoval(ticket)), k);
  }

  /** Steps that change neither what the others have been told of nor what is outstanding. */
  lemma SameKeeps(f: Fine, f': Fine, k: Key)
    requires SlotOk(f, k) && Seen(f', k) == Seen(f, k)
    requires Promised(f', k) == Promised(f, k) && Afterwards(f', k, true) == Afterwards(f, k, true)
    requires f'.sys.phase == f.sys.phase && f'.sys.replica == f.sys.replica && f'.sys.queue == f.sys.queue
    requires f'.apart == f.apart && (Waits(f', k) <==> Waits(f, k))
    ensures SlotOk(f', k)
  {
  }

  /** A new car is not seen before its spawn is told. */
  lemma AddCarUnseen(maxCars: int, f: Fine, pid: int, doc: Option<Json>, veto: bool, k: Key)
    requires ListsOk(f.sys) && CanFine(f, AddCar(pid, doc, veto))
    ensures Seen(Core(maxCars, f, AddCar(pid, doc, veto)), k) == Seen(f, k)
  {
    var cars := f.sys.peers[pid].cars;
    if k.pid == pid && doc.Some? {
      LookupAppend(cars.vehicles, Vehicle(cars.spawning.value, doc.value), k.vid);
      LookupIffId(cars.vehicles, cars.spawning.value);
    }
  }

  /** What is outstanding does not depend on the lists or on spawns. */
  lemma SameOutstanding(f: Fine, f': Fine, k: Key)
    requires f'.removals == f.removals
    requires forall r, early :: Hits(f'.sys, r, k, early) <==> Hits(f.sys, r, k, early)
    requires k.pid in f.work && !f.work[k.pid].Spawned? ==> k.pid in f'.work && f'.work[k.pid] == f.work[k.pid]
    requires k.pid in f'.work && !f'.work[k.pid].Spawned? ==> k.pid in f.work && f.work[k.pid] == f'.work[k.pid]
    requires Seen(f', k) == Seen(f, k)
    ensures Promised(f', k) == Promised(f, k) && Afterwards(f', k, true) == Afterwards(f, k, true)
  {
  }

  lemma BeginSpawnKeeps(maxCars: int, f: Fine, pid: int, k: Key)
    requires FineInv(f) && CanFine(f, BeginSpawn(pid)) && k.pid != f.sys.joiner && !f.sys.phase.Joining?
    ensures SlotOk(NextFine(maxCars, f, BeginSpawn(pid)), k)
  {
    var f' := NextFine(maxCars, f, BeginSpawn(pid));
    assert Seen(f', k) == Seen(f, k);
    SameOutstanding(f, f', k);
    SameKeeps(f, f', k);
  }

  lemma AddCarKeeps(maxCars: int, f: Fine, pid: int, doc: Option<Json>, veto: bool, k: Key)
    requires FineInv(f) && CanFine(f, AddCar(pid, doc, veto)) && k.pid != f.sys.joiner && !f.sys.phase.Joining?
    ensures SlotOk(NextFine(maxCars, f, AddCar(pid, doc, veto)), k)
  {
    var f' := NextFine(maxCars, f, AddCar(pid, doc, veto));
    AddCarUnseen(maxCars, f, pid, doc, veto, k);
    assert Seen(f', k) == Seen(f, k);
    SameOutstanding(f, f', k);
    SameKeeps(f, f', k);
  }

  lemma BeginLeaveSame(maxCars: int, f: Fine, pid: int, k: Key)
    requires CanFine(f, BeginLeave(pid))
    ensures
      var f' := Core(maxCars, f, BeginLeave(pid));
      && Promised(f', k) == Promised(f, k) && Afterwards(f', k, true) == Afterwards(f, k, true)
      && Seen(f', k) == Seen(f, k)
  {
    var f' := Core(maxCars, f, BeginLeave(pid));
    assert forall r, early :: Hits(f'.sys, r, k, early) <==> Hits(f.sys, r, k, early);
  }

  lemma BeginLeaveKeeps(maxCars: int, f: Fine, pid: int, k: Key)
    requires FineInv(f) && CanFine(f, BeginLeave(pid)) && k.pid != f.sys.joiner && !f.sys.phase.Joining?
    ensures SlotOk(NextFine(maxCars, f, BeginLeave(pid)), k)
  {
    BeginLeaveSame(maxCars, f, pid, k);
    OnlyCore(Core(maxCars, f, BeginLeave(pid)), NextFine(maxCars, f, BeginLeave(pid)), k);
    SameKeeps(f, NextFine(maxCars, f, BeginLeave(pid)), k);
  }

  /** From now on the queue decides the slot, whatever was there. */
  lemma SpawnForces(k: Key, queue: seq<Packet>, hs: seq<Packet>, data: Json, slot: Option<Json>)
    requires hs == [Packet(k.pid, Spawn(k.vid, data))]
    ensures Replay(slot, k, queue + hs) == Some(data)
    ensures Replay(slot, k, hs) == Some(data)
    ensures Summarise(k, queue + hs) == Forced(Some(data))
  {
    ReplayAppend(slot, k, queue, hs);
    assert hs[1..] == [] && (queue + hs)[..|queue|] == queue;
    assert SlotStep(Replay(slot, k, queue), k, hs[0]) == Some(data) == SlotStep(slot, k, hs[0]);
  }

  lemma TellSpawnSlot(maxCars: int, f: Fine, pid: int, k: Key)
    requires FineInv(f) && CanFine(f, TellSpawn(pid)) && pid != f.sys.joiner && k == Key(pid, f.work[pid].vid)
    requires !f.sys.phase.Joining? && !f.deaf
    ensures SlotOk(NextFine(maxCars, f, TellSpawn(pid)), k)
  {
    var f', core := NextFine(maxCars, f, TellSpawn(pid)), Core(maxCars, f, TellSpawn(pid));
    var hs := TellsPackets(maxCars, f, TellSpawn(pid));
    var data := f.work[pid].data;
    assert hs == [Packet(pid, Spawn(k.vid, data))];
    assert f'.sys.queue == f.sys.queue + hs;
    OnlyCore(core, f', k);
    SpawnForces(k, f.sys.queue, hs, data, Get(f.sys.replica, k));
    SpawnForces(k, f.sys.queue, hs, data, Afterwards(f', k, true));
    if k in f.apart {
      SpawnForces(k, f.sys.queue, hs, data, f.apart[k]);
    }
    assert k in f'.apart ==> f'.apart[k] == Some(data);
    assert k !in f'.apart ==> Promised(f', k) == Some(data);
    assert SlotOk(f, k);
  }

  lemma TellSpawnOther(maxCars: int, f: Fine, pid: int, k: Key)
    requires FineInv(f) && CanFine(f, TellSpawn(pid)) && k.pid != f.sys.joiner && k != Key(pid, f.work[pid].vid)
    requires !f.sys.phase.Joining? && !f.deaf
    ensures SlotOk(NextFine(maxCars, f, TellSpawn(pid)), k)
  {
    var f' := NextFine(maxCars, f, TellSpawn(pid));
    var ops := Tells(maxCars, f, TellSpawn(pid)).1;
    var hs := Heard(f.sys, pid, ops);
    SameOutstanding(f, f', k);
    UntouchedReplay(Promised(f, k), k, hs);
    if k in f.apart {
      HeardIsTold(f.apart[k], f.sys, pid, ops, k);
    }
    QueueGrows(f, f', hs, k);
  }

  lemma MissedSpawnKeeps(maxCars: int, f: Fine, pid: int, k: Key)
    requires FineInv(f) && CanFine(f, TellSpawn(pid)) && f.deaf && k.pid != f.sys.joiner
    ensures SlotOk(NextFine(maxCars, f, TellSpawn(pid)), k)
  {
    var f' := NextFine(maxCars, f, TellSpawn(pid));
    assert forall r, early :: Hits(f'.sys, r, k, early) <==> Hits(f.sys, r, k, early);
    if k == Key(pid, f.work[pid].vid) {
      assert TellsPackets(maxCars, f, TellSpawn(pid))[0] in TellsPackets(maxCars, f, TellSpawn(pid));
    }
  }

  lemma VisitElsewhere(maxCars: int, f: Fine, pid: int, handle: nat, k: Key)
    requires FineInv(f) && CanFine(f, Whole(Visit(pid, handle))) && k.pid != f.sys.joiner
    requires !Present(f.sys, pid, handle) || k.pid != pid
    ensures SlotOk(NextFine(maxCars, f, Whole(Visit(pid, handle))), k)
  {
    var f' := NextFine(maxCars, f, Whole(Visit(pid, handle)));
    OnlyCore(f, f', k);
    assert SlotOk(f, k);
    if Present(f.sys, pid, handle) {
      var ps := Packets(pid, SnapshotOps(f.sys.peers[pid].cars.vehicles));
      ReceiveAllIsReplay(f.sys.replica, ps, k);
      UntouchedReplay(Get(f.sys.replica, k), k, ps);
      assert k in f'.apart <==> k in f.apart;
    }
  }

  lemma VisitShows(maxCars: int, f: Fine, handle: nat, k: Key)
    requires ListsOk(f.sys) && CanFine(f, Whole(Visit(k.pid, handle))) && Present(f.sys, k.pid, handle)
    ensures
      var f', view := NextFine(maxCars, f, Whole(Visit(k.pid, handle))), View(f.sys.peers, k);
      Get(f'.sys.replica, k) == if view.Some? then view else Get(f.sys.replica, k)
  {
    var vs := f.sys.peers[k.pid].cars.vehicles;
    ReceiveAllIsReplay(f.sys.replica, Packets(k.pid, SnapshotOps(vs)), k);
    SnapshotReplay(Get(f.sys.replica, k), vs, k);
  }

  lemma VisitApart(maxCars: int, f: Fine, handle: nat, k: Key)
    requires CanFine(f, Whole(Visit(k.pid, handle))) && Present(f.sys, k.pid, handle) && !f.sys.phase.Joining?
    ensures
      var f', view := NextFine(maxCars, f, Whole(Visit(k.pid, handle))), View(f.sys.peers, k);
      && (k in f'.apart <==> k in f.apart || k in Unsettled(f, k.pid))
      && (k in f'.apart && view.Some? ==> f'.apart[k] == Replay(view, k, f.sys.queue))
      && (k in f'.apart && view.None? ==> f'.apart[k] == if k in f.apart then f.apart[k] else None)
  {
  }

  lemma VisitHere(maxCars: int, f: Fine, handle: nat, k: Key)
    requires FineInv(f) && CanFine(f, Whole(Visit(k.pid, handle))) && k.pid != f.sys.joiner
    requires Present(f.sys, k.pid, handle)
    ensures SlotOk(NextFine(maxCars, f, Whole(Visit(k.pid, handle))), k)
  {
    OnlyCore(f, NextFine(maxCars, f, Whole(Visit(k.pid, handle))), k);
    VisitShows(maxCars, f, handle, k);
    VisitApart(maxCars, f, handle, k);
    LookupIffId(f.sys.peers[k.pid].cars.vehicles, k.vid);
    assert SlotOk(f, k);
    if Waits(f, k) && k in f.apart {
      ForcedReplay(None, k, f.sys.queue);
    }
    SettledShows(f, k);
  }

  /** What a visit shows is right unless it is unsettled. */
  lemma SettledShows(f: Fine, k: Key)
    requires k.pid in f.sys.peers
    ensures k !in Unsettled(f, k.pid) && View(f.sys.peers, k).Some? ==> Afterwards(f, k, true) == View(f.sys.peers, k)
    ensures View(f.sys.peers, k).None? && (k.pid in f.work && f.work[k.pid].Told? ==> !f.work[k.pid].op.Spawn?) ==>
      Afterwards(f, k, true) == None
  {
    LookupIffId(f.sys.peers[k.pid].cars.vehicles, k.vid);
  }

  lemma StartKeeps(maxCars: int, f: Fine, k: Key)
    requires FineInv(f) && CanFine(f, Whole(StartSync)) && k.pid != f.sys.joiner
    ensures SlotOk(NextFine(maxCars, f, Whole(StartSync)), k)
  {
    var f' := NextFine(maxCars, f, Whole(StartSync));
    assert Afterwards(f', k, true) == Promised(f', k);
  }

  lemma JoinKeeps(maxCars: int, f: Fine, pid: int, k: Key)
    requires FineInv(f) && CanFine(f, Whole(Join(pid))) && k.pid != f.sys.joiner && !f.sys.phase.Joining?
    ensures SlotOk(NextFine(maxCars, f, Whole(Join(pid))), k)
  {
    var f' := NextFine(maxCars, f, Whole(Join(pid)));
    assert Seen(f', k) == Seen(f, k);
    assert forall t, early | t in f.removals ::
      Hits(f'.sys, f.removals[t], k, early) <==> Hits(f.sys, f.removals[t], k, early);
    assert Promised(f', k) == Promised(f, k) && Afterwards(f', k, true) == Afterwards(f, k, true);
    SameKeeps(f, f', k);
  }

  lemma DeliverKeeps(maxCars: int, f: Fine, k: Key)
    requires FineInv(f) && CanFine(f, Whole(Deliver)) && k.pid != f.sys.joiner
    ensures SlotOk(NextFine(maxCars, f, Whole(Deliver)), k)
  {
    OnlyCore(f, NextFine(maxCars, f, Whole(Deliver)), k);
    ReceiveIsSlotStep(f.sys.replica, f.sys.queue[0], k);
    assert SlotOk(f, k);
  }

  lemma SwitchKeeps(maxCars: int, f: Fine, step: FineStep, k: Key)
    requires FineInv(f) && CanFine(f, step) && (step.StopSyncing? || step.SetSynced?) && k.pid != f.sys.joiner
    ensures SlotOk(NextFine(maxCars, f, step), k)
  {
    OnlyCore(f, NextFine(maxCars, f, step), k);
    assert SlotOk(f, k);
  }

  lemma SlotKeeps(maxCars: int, f: Fine, step: FineStep, k: Key)
    requires FineInv(f) && CanFine(f, step) && k.pid != f.sys.joiner
    requires !NextFine(maxCars, f, step).sys.phase.Joining?
    ensures SlotOk(NextFine(maxCars, f, step), k)
  {
    if IsTelling(step) {
      if f.deaf {
        MissedKeeps(maxCars, f, step, k);
      } else {
        ToldKeeps(maxCars, f, step, k);
      }
    } else {
      match step
      case TellSpawn(pid) =>
        if f.deaf {
          MissedSpawnKeeps(maxCars, f, pid, k);
        } else {
          if k == Key(pid, f.work[pid].vid) {
            TellSpawnSlot(maxCars, f, pid, k);
          } else {
            TellSpawnOther(maxCars, f, pid, k);
          }
        }
      case Do(pid) => DoKeeps(maxCars, f, pid, k);
      case DoRemoval(ticket) => DoRemovalKeeps(maxCars, f, ticket, k);
      case BeginSpawn(pid) => BeginSpawnKeeps(maxCars, f, pid, k);
      case AddCar(pid, doc, veto) => AddCarKeeps(maxCars, f, pid, doc, veto, k);
      case BeginLeave(pid) => BeginLeaveKeeps(maxCars, f, pid, k);
      case Whole(whole) =>
        if whole.Visit? {
          if Present(f.sys, whole.pid, whole.handle) && k.pid == whole.pid {
            VisitHere(maxCars, f, whole.handle, k);
          } else {
            VisitElsewhere(maxCars, f, whole.pid, whole.handle, k);
          }
        } else if whole.StartSync? {
          StartKeeps(maxCars, f, k);
        } else if whole.Join? {
          JoinKeeps(maxCars, f, whole.pid, k);
        } else {
          DeliverKeeps(maxCars, f, k);
        }
      case _ => SwitchKeeps(maxCars, f, step, k);
    }
  }

  lemma ApplyKeepsList(vs: seq<Vehicle>, op: VehicleOp)
    requires DistinctIds(vs) && !op.Spawn?
    ensures DistinctIds(ApplyOp(vs, op)) && Ids(ApplyOp(vs, op)) <= Ids(vs)
  {
    match op
    case Edit(vid, config) =>
      if config.Some? { SetKeepsIds(vs, vid, JObj(config.value)); }
    case Paint(vid, paints) =>
      if ApplyOp(vs, op) != vs { SetKeepsIds(vs, vid, Repaint(Lookup(vs, vid).value, paints.value)); }
    case Delete(vid) =>
      DeleteKeepsDistinct(vs, vid);
  }

  lemma CarsKept(maxCars: int, f: Fine, step: FineStep, pid: int)
    requires ListsOk(f.sys) && WorkOk(f) && CanFine(f, step)
    requires pid in Core(maxCars, f, step).sys.peers
    ensures CarsOk(Core(maxCars, f, step).sys.peers[pid].cars)
  {
    match step
    case AddCar(p, doc, veto) =>
      var cars := f.sys.peers[p].cars;
      if doc.Some? { AppendKeepsDistinct(cars.vehicles, Vehicle(cars.spawning.value, doc.value)); }
    case Do(p) =>
      if f.work[p].Told? { ApplyKeepsList(f.sys.peers[p].cars.vehicles, f.work[p].op); }
    case DoRemoval(ticket) =>
      var r := f.removals[ticket];
      if Present(f.sys, r.pid, r.handle) { DeleteKeepsDistinct(f.sys.peers[r.pid].cars.vehicles, r.vid); }
    case _ =>
  }

  lemma HandlesKept(maxCars: int, f: Fine, step: FineStep, pid: int)
    requires ListsOk(f.sys) && CanFine(f, step)
    requires pid in Core(maxCars, f, step).sys.peers
    ensures Core(maxCars, f, step).sys.peers[pid].handle < Core(maxCars, f, step).sys.nextHandle
    ensures f.sys.nextHandle <= Core(maxCars, f, step).sys.nextHandle
  {
  }

  lemma ListsKept(maxCars: int, f: Fine, step: FineStep)
    requires ListsOk(f.sys) && WorkOk(f) && CanFine(f, step)
    ensures ListsOk(Core(maxCars, f, step).sys)
  {
    var core := Core(maxCars, f, step);
    forall pid | pid in core.sys.peers
      ensures CarsOk(core.sys.peers[pid].cars) && core.sys.peers[pid].handle < core.sys.nextHandle
    {
      CarsKept(maxCars, f, step, pid);
      HandlesKept(maxCars, f, step, pid);
    }
  }

  lemma WorkKept(maxCars: int, f: Fine, step: FineStep, pid: int)
    requires ListsOk(f.sys) && WorkOk(f) && CanFine(f, step)
    requires pid in Core(maxCars, f, step).work
    ensures
      var core := Core(maxCars, f, step);
      && (core.work[pid].Told? ==> !core.work[pid].op.Spawn?)
      && (core.work[pid].Leaving? ==> pid != core.sys.joiner)
  {
  }

  lemma LeaversKept(maxCars: int, f: Fine, step: FineStep, pid: int)
    requires ListsOk(f.sys) && WorkOk(f) && CanFine(f, step)
    requires pid in Core(maxCars, f, step).work && Core(maxCars, f, step).work[pid].Leaving?
    ensures
      var core := Core(maxCars, f, step);
      pid in core.sys.peers && AllListed(core.work[pid], core.sys.peers[pid].cars.vehicles)
  {
    match step
    case BeginLeave(p) =>
      ListsItself(f.sys.peers[p].cars.vehicles);
    case DoRemoval(ticket) =>
      var r := f.removals[ticket];
      if Present(f.sys, r.pid, r.handle) { DeleteKeepsDistinct(f.sys.peers[r.pid].cars.vehicles, r.vid); }
    case _ =>
  }

  lemma ListsItself(vs: seq<Vehicle>)
    ensures AllListed(Leaving(seq(|vs|, i requires 0 <= i < |vs| => vs[i].id), {}, {}), vs)
  {
    var todo := seq(|vs|, i requires 0 <= i < |vs| => vs[i].id);
    forall vid | vid in Ids(vs) ensures vid in todo {
      var i :| 0 <= i < |vs| && vs[i].id == vid;
      assert todo[i] == vid;
    }
  }

  lemma WorkersKept(maxCars: int, f: Fine, step: FineStep, pid: int)
    requires ListsOk(f.sys) && WorkOk(f) && CanFine(f, step)
    requires pid in Core(maxCars, f, step).work
    ensures
      var core := Core(maxCars, f, step);
      pid in core.sys.peers && core.sys.peers[pid].cars.spawning.None?
  {
  }

  lemma RemovalsKept(maxCars: int, f: Fine, step: FineStep, ticket: nat)
    requires ListsOk(f.sys) && WorkOk(f) && CanFine(f, step)
    requires ticket in Core(maxCars, f, step).removals
    ensures Core(maxCars, f, step).removals[ticket].handle < Core(maxCars, f, step).sys.nextHandle
  {
  }

  lemma OutstandingKept(maxCars: int, f: Fine, step: FineStep)
    requires ListsOk(f.sys) && WorkOk(f) && CanFine(f, step)
    ensures WorkOk(Core(maxCars, f, step))
  {
    var core := Core(maxCars, f, step);
    forall pid | pid in core.work
      ensures pid in core.sys.peers && core.sys.peers[pid].cars.spawning.None?
      ensures core.work[pid].Told? ==> !core.work[pid].op.Spawn?
      ensures core.work[pid].Leaving? ==>
        pid != core.sys.joiner && AllListed(core.work[pid], core.sys.peers[pid].cars.vehicles)
    {
      WorkKept(maxCars, f, step, pid);
      if core.work[pid].Leaving? {
        LeaversKept(maxCars, f, step, pid);
      }
      WorkersKept(maxCars, f, step, pid);
    }
    forall ticket | ticket in core.removals ensures core.removals[ticket].handle < core.sys.nextHandle {
      RemovalsKept(maxCars, f, step, ticket);
    }
  }

  /** The rest of the step leaves lists, work and phase as they are. */
  lemma NextIsCore(maxCars: int, f: Fine, step: FineStep)
    requires CanFine(f, step)
    ensures
      var core, f' := Core(maxCars, f, step), NextFine(maxCars, f, step);
      && f' == core.(sys := f'.sys, apart := f'.apart) && f'.sys == core.sys.(queue := f'.sys.queue)
  {
  }

  lemma PhaseKept(maxCars: int, f: Fine, step: FineStep)
    requires FineInv(f) && CanFine(f, step)
    ensures
      var f' := NextFine(maxCars, f, step);
      && f'.sys.joiner == f.sys.joiner
      && (f'.deaf ==> f'.sys.phase.Synced?)
      && (f'.sys.phase.Joining? ==> f'.sys.queue == [] && f'.sys.replica == map[] && f'.apart == map[])
  {
  }

  lemma FineStepPreserves(maxCars: int, f: Fine, step: FineStep)
    requires FineInv(f) && CanFine(f, step)
    ensures FineInv(NextFine(maxCars, f, step)) && NextFine(maxCars, f, step).sys.joiner == f.sys.joiner
  {
    var f' := NextFine(maxCars, f, step);
    ListsKept(maxCars, f, step);
    OutstandingKept(maxCars, f, step);
    NextIsCore(maxCars, f, step);
    PhaseKept(maxCars, f, step);
    if !f'.sys.phase.Joining? {
      forall k: Key | k.pid != f'.sys.joiner ensures SlotOk(f', k) {
        SlotKeeps(maxCars, f, step, k);
      }
    }
  }
}
