/**
 The server's side of the vehicle protocol: every handler changes the sender's client object and fills the
 other clients' queues, and is proved against CarNext and Broadcast.
 */
module Server {
  import opened Clients
  import opened Json
  import opened Outcomes
  import opened Vehicles
  import opened Wrappers

  ghost function ClientIds(clients: set<Client>): set<int>
    reads clients`id
  {
    set c | c in clients :: c.id
  }

  /** No two clients share a player ID; clients without one have -1. */
  ghost predicate DistinctPlayers(clients: set<Client>)
    reads clients`id
  {
    forall a, b | a in clients && b in clients && a != b && a.id >= 0 :: a.id != b.id
  }

  predicate Listening(c: Client)
    reads c`isSynced, c`isSyncing
  {
    c.isSynced || c.isSyncing
  }

  /** Edits and paints are not echoed to the client they came from. */
  predicate Echoed(op: VehicleOp) {
    op.Spawn? || op.Delete?
  }

  /** What a client's queue gains when `sender` broadcasts `ops`. */
  ghost function Gained(c: Client, sender: Client, pid: int, ops: seq<VehicleOp>): seq<Message>
    reads c`isSynced, c`isSyncing
    decreases |ops|
  {
    if ops == [] then []
    else
      (if Listening(c) && (c != sender || Echoed(ops[0])) then [VehicleMessage(Packet(pid, ops[0]))] else [])
      + Gained(c, sender, pid, ops[1..])
  }

  lemma GainedOne(c: Client, sender: Client, pid: int, op: VehicleOp)
    ensures Gained(c, sender, pid, [op])
         == if Listening(c) && (c != sender || Echoed(op)) then [VehicleMessage(Packet(pid, op))] else []
  {
    assert [op][1..] == [];
  }

  /** A queue after a broadcast, for a client that hears it and one that does not. */
  predicate Gains(before: seq<Message>, after: seq<Message>, hears: bool, pid: int, op: VehicleOp) {
    after == before + if hears then [VehicleMessage(Packet(pid, op))] else []
  }

  class Server {
    var clients: set<Client>
    const maxCars: int

    constructor (maxCars: int)
      ensures clients == {} && this.maxCars == maxCars
    {
      clients := {};
      this.maxCars := maxCars;
    }

    method InsertClient(c: Client)
      modifies this`clients
      ensures clients == old(clients) + {c}
    {
      clients := clients + {c};
    }

    method RemoveClient(c: Client)
      modifies this`clients, c`vehicles
      ensures clients == old(clients) - {c} && c.vehicles == []
    {
      c.ClearCars();
      clients := clients - {c};
    }

    /** Passes over the clients, in any order each time, until a whole pass finds the candidate unused. */
    method OpenID() returns (openId: int)
      ensures openId == LeastFree(ClientIds(clients))
      ensures openId <= |ClientIds(clients)|
    {
      openId := 0;
      var found := false;
      while !found
        invariant 0 <= openId <= |ClientIds(clients)|
        invariant forall k | 0 <= k < openId :: k in ClientIds(clients)
        invariant found ==> openId !in ClientIds(clients)
        decreases !found, |ClientIds(clients)| - openId
      {
        found := true;
        ghost var start := openId;
        var rest := clients;
        while rest != {}
          invariant rest <= clients && start <= openId
          invariant forall k | 0 <= k < openId :: k in ClientIds(clients)
          invariant found <==> openId == start
          invariant found ==> forall c | c in clients - rest :: c.id != openId
          decreases rest
        {
          var c :| c in rest;
          rest := rest - {c};
          if c.id == openId {
            found := false;
            openId := openId + 1;
          }
        }
        OpenIdBound(ClientIds(clients), openId);
      }
      OpenIdUnique(ClientIds(clients), openId, LeastFree(ClientIds(clients)));
    }

    /** Choosing and setting the ID as one step keeps player IDs distinct. */
    method AssignID(c: Client)
      requires c in clients && c.id == -1 && DistinctPlayers(clients)
      modifies c`id
      ensures c.id == LeastFree(old(ClientIds(clients)))
      ensures DistinctPlayers(clients)
    {
      var openId := OpenID();
      forall b | b in clients && b != c ensures b.id != openId {
        assert b.id in ClientIds(clients);
      }
      c.id := openId;
    }

    /** The reliable path: the message joins the queue of every client that is synced or syncing. */
    method SendToAll(sender: Client?, m: Message, self: bool)
      requires !self ==> sender != null
      modifies clients`packetsSync
      ensures forall c | c in clients ::
        c.packetsSync == old(c.packetsSync) + if Listening(c) && (self || c != sender) then [m] else []
    {
      var rest := clients;
      while rest != {}
        invariant rest <= clients
        invariant forall c | c in rest :: c.packetsSync == old(c.packetsSync)
        invariant forall c | c in clients - rest ::
          c.packetsSync == old(c.packetsSync) + if Listening(c) && (self || c != sender) then [m] else []
        decreases rest
      {
        var c :| c in rest;
        rest := rest - {c};
        if self || c != sender {
          if c.isSynced || c.isSyncing {
            c.EnqueuePacket(m);
          }
        }
      }
    }

    method BroadcastOp(c: Client, op: VehicleOp)
      modifies clients`packetsSync
      ensures forall k | k in clients :: k.packetsSync == old(k.packetsSync) + Gained(k, c, c.id, [op])
    {
      SendToAll(if Echoed(op) then null else c, VehicleMessage(Packet(c.id, op)), Echoed(op));
      forall k | k in clients ensures k.packetsSync == old(k.packetsSync) + Gained(k, c, c.id, [op]) {
        GainedOne(k, c, c.id, op);
      }
    }

    /** First half of a spawn: the identifier is chosen, and Lua is asked. */
    method SpawnVehicleBegin(c: Client) returns (carId: int)
      ensures c.Cars(Some(carId)) == CarNext(maxCars, c.Cars(None), SpawnBegin)
    {
      carId := c.GetOpenCarID();
    }

    /** Whether the spawn is within the limit; a unicycle takes the free slot at once. */
    method CheckSpawn(c: Client, doc: Option<Json>, carId: int) returns (ok: bool)
      modifies c`unicycleId
      ensures ok <==> ShouldSpawn(maxCars, old(c.Cars(Some(carId))), doc)
      ensures c.unicycleId == if ReservesUnicycle(old(c.Cars(Some(carId))), doc) then carId else old(c.unicycleId)
    {
      if IsUnicycle(doc) && c.unicycleId < 0 {
        c.unicycleId := carId;
        return true;
      }
      var count := c.GetCarCount();
      return count < maxCars;
    }

    /** Second half: Lua has answered. The owner of a refused spawn gets it back, and then its delete. */
    method SpawnVehicleEnd(c: Client, carId: int, doc: Option<Json>, veto: bool)
      returns (confirmed: bool, answer: seq<Message>)
      modifies c`vehicles, c`unicycleId, clients`packetsSync
      ensures c.Cars(None) == CarNext(maxCars, old(c.Cars(Some(carId))), SpawnEnd(doc, veto))
      ensures confirmed <==> c.vehicles != old(c.vehicles)
      ensures answer == if confirmed then [] else [SentBack(carId, doc), VehicleMessage(Packet(c.id, Delete(carId)))]
      ensures forall k | k in clients ::
        k.packetsSync == old(k.packetsSync)
          + Gained(k, c, c.id, Broadcast(maxCars, old(c.Cars(Some(carId))), SpawnEnd(doc, veto)))
      ensures carId !in Ids(old(c.vehicles)) ==>
        var room := |old(c.vehicles)| - (if old(c.unicycleId) in Ids(old(c.vehicles)) then 1 else 0) < maxCars;
        var unicycle := doc.Some? && doc.value.JObj? && SaysUnicycle(doc.value.fields);
        && (confirmed <==> !veto && doc.Some? && (room || (unicycle && old(c.unicycleId) < 0)))
        && OthersKept(old(c.vehicles), c.vehicles, carId)
        && Lookup(c.vehicles, carId) == (if confirmed then doc else None)
        && forall k | k in clients ::
             if confirmed
             then Gains(old(k.packetsSync), k.packetsSync, k.isSynced || k.isSyncing, c.id, Spawn(carId, doc.value))
             else k.packetsSync == old(k.packetsSync)
    {
      ghost var before := c.Cars(Some(carId));
      var ok := CheckSpawn(c, doc, carId);
      if ok && !veto && doc.Some? {
        c.AddNewCar(carId, doc.value);
        BroadcastOp(c, Spawn(carId, doc.value));
        confirmed, answer := true, [];
      } else {
        confirmed, answer := false, [SentBack(carId, doc), VehicleMessage(Packet(c.id, Delete(carId)))];
      }
      if carId !in Ids(before.vehicles) {
        SpawnOutcome(maxCars, before, carId, doc, veto);
      }
    }

    /** Stores an edited configuration, if there is one and the vehicle exists. */
    method Apply(c: Client, vid: int, config: Option<map<string, Json>>)
      modifies c`vehicles
      ensures c.vehicles == ApplyOp(old(c.vehicles), Edit(vid, config))
    {
      var current := c.GetCarData(vid);
      if current == JNull || config.None? {
        return;
      }
      c.SetCarData(vid, JObj(config.value));
    }

    /** An edit of the client's own vehicle. */
    method EditOwn(c: Client, vid: int, config: Option<map<string, Json>>, veto: bool)
      requires vid >= 0
      modifies c`vehicles, c`unicycleId, clients`packetsSync
      ensures c.Cars(None) == CarNext(maxCars, old(c.Cars(None)), EditCar(vid, config, veto))
      ensures forall k | k in clients ::
        k.packetsSync == old(k.packetsSync)
          + Gained(k, c, c.id, Broadcast(maxCars, old(c.Cars(None)), EditCar(vid, config, veto)))
    {
      if (c.unicycleId != vid || IsUnicycle(if config.Some? then Some(JObj(config.value)) else None)) && !veto {
        BroadcastOp(c, Edit(vid, config));
        Apply(c, vid, config);
      } else {
        if c.unicycleId == vid {
          c.unicycleId := -1;
        }
        BroadcastOp(c, Delete(vid));
        c.DeleteCar(vid);
      }
    }

    /** `ids` is what the packet's player and vehicle IDs parse to. */
    method EditVehicle(c: Client, ids: Option<(int, int)>, config: Option<map<string, Json>>, veto: bool)
      requires ids.Some? ==> ids.value.1 >= 0
      modifies c`vehicles, c`unicycleId, clients`packetsSync
      ensures ids.Some? && ids.value.0 == c.id ==>
        var e := EditCar(ids.value.1, config, veto);
        && c.Cars(None) == CarNext(maxCars, old(c.Cars(None)), e)
        && forall k | k in clients :: k.packetsSync == old(k.packetsSync)
             + Gained(k, c, c.id, Broadcast(maxCars, old(c.Cars(None)), e))
      ensures !(ids.Some? && ids.value.0 == c.id) ==>
        c.Cars(None) == old(c.Cars(None)) && forall k | k in clients :: k.packetsSync == old(k.packetsSync)
      ensures ids.Some? && ids.value.0 == c.id && DistinctIds(old(c.vehicles)) ==>
        var (vid, slot) := (ids.value.1, Lookup(old(c.vehicles), ids.value.1));
        && OthersKept(old(c.vehicles), c.vehicles, vid)
        && if !veto && (vid == old(c.unicycleId) ==> config.Some? && SaysUnicycle(config.value))
           then
             && c.unicycleId == old(c.unicycleId)
             && Lookup(c.vehicles, vid) == (if config.Some? && Filled(slot) then Some(JObj(config.value)) else slot)
             && forall k | k in clients ::
                  Gains(
                    old(k.packetsSync), k.packetsSync, (k.isSynced || k.isSyncing) && k != c, c.id, Edit(vid, config))
           else
             && c.unicycleId == (if old(c.unicycleId) == vid then -1 else old(c.unicycleId))
             && Lookup(c.vehicles, vid) == None
             && forall k | k in clients ::
                  Gains(old(k.packetsSync), k.packetsSync, k.isSynced || k.isSyncing, c.id, Delete(vid))
    {
      if ids.Some? && ids.value.0 == c.id {
        ghost var before := c.Cars(None);
        EditOwn(c, ids.value.1, config, veto);
        if DistinctIds(before.vehicles) {
          EditOutcome(maxCars, before, ids.value.1, config, veto);
        }
      }
    }

    method DeleteVehicle(c: Client, ids: Option<(int, int)>)
      requires ids.Some? ==> ids.value.1 >= 0
      modifies c`vehicles, c`unicycleId, clients`packetsSync
      ensures ids.Some? && ids.value.0 == c.id ==>
        var e := DeleteCar(ids.value.1);
        && c.Cars(None) == CarNext(maxCars, old(c.Cars(None)), e)
        && forall k | k in clients :: k.packetsSync == old(k.packetsSync)
             + Gained(k, c, c.id, Broadcast(maxCars, old(c.Cars(None)), e))
      ensures !(ids.Some? && ids.value.0 == c.id) ==>
        c.Cars(None) == old(c.Cars(None)) && forall k | k in clients :: k.packetsSync == old(k.packetsSync)
      ensures ids.Some? && ids.value.0 == c.id && DistinctIds(old(c.vehicles)) ==>
        && OthersKept(old(c.vehicles), c.vehicles, ids.value.1) && Lookup(c.vehicles, ids.value.1) == None
        && c.unicycleId == (if old(c.unicycleId) == ids.value.1 then -1 else old(c.unicycleId))
        && forall k | k in clients ::
             Gains(old(k.packetsSync), k.packetsSync, k.isSynced || k.isSyncing, c.id, Delete(ids.value.1))
    {
      if ids.None? || ids.value.0 != c.id {
        return;
      }
      var vid := ids.value.1;
      ghost var before := c.Cars(None);
      if DistinctIds(before.vehicles) {
        DeleteOutcome(maxCars, before, vid);
      }
      if c.unicycleId == vid {
        c.unicycleId := -1;
      }
      BroadcastOp(c, Delete(vid));
      c.DeleteCar(vid);
    }

    /**
     `paints` is None when the bracketed text is not valid JSON. Storing it then ends the handler with an exception,
     after the broadcast and before any change.
     */
    method PaintVehicle(c: Client, ids: Option<(int, int)>, paints: Option<seq<Json>>) returns (threw: bool)
      requires ids.Some? ==> ids.value.1 >= 0
      modifies c`vehicles, clients`packetsSync
      ensures threw <==>
        && ids.Some? && ids.value.0 == c.id && paints.None?
        && Lookup(old(c.vehicles), ids.value.1).Some? && Paintable(Lookup(old(c.vehicles), ids.value.1).value)
      ensures ids.Some? && ids.value.0 == c.id ==>
        var e := PaintCar(ids.value.1, paints);
        && c.Cars(None) == CarNext(maxCars, old(c.Cars(None)), e)
        && forall k | k in clients :: k.packetsSync == old(k.packetsSync)
             + Gained(k, c, c.id, Broadcast(maxCars, old(c.Cars(None)), e))
      ensures !(ids.Some? && ids.value.0 == c.id) ==>
        c.Cars(None) == old(c.Cars(None)) && forall k | k in clients :: k.packetsSync == old(k.packetsSync)
      ensures ids.Some? && ids.value.0 == c.id ==>
        var (vid, slot) := (ids.value.1, Lookup(old(c.vehicles), ids.value.1));
        && OthersKept(old(c.vehicles), c.vehicles, vid)
        && (if paints.Some? && HasPaints(slot)
            then Lookup(c.vehicles, vid).Some? && HasNewPaints(slot.value, Lookup(c.vehicles, vid).value, paints.value)
            else c.vehicles == old(c.vehicles))
        && forall k | k in clients ::
             Gains(old(k.packetsSync), k.packetsSync, (k.isSynced || k.isSyncing) && k != c, c.id, Paint(vid, paints))
    {
      if ids.None? || ids.value.0 != c.id {
        return false;
      }
      var vid := ids.value.1;
      PaintOutcome(maxCars, c.Cars(None), vid, paints);
      BroadcastOp(c, Paint(vid, paints));
      var data := c.GetCarData(vid);
      if data == JNull {
        return false;
      }
      if Paintable(data) {
        if paints.None? {
          return true;
        }
        c.SetCarData(vid, Repaint(data, paints.value));
      }
      return false;
    }

    /** MP.RemoveVehicle: the unicycle slot is left as it is. */
    method RemoveVehicle(c: Client, vid: int, ghost spawning: Option<int>) returns (removed: bool)
      modifies c`vehicles, clients`packetsSync
      ensures c.Cars(spawning) == CarNext(maxCars, old(c.Cars(spawning)), LuaRemove(vid))
      ensures removed <==> Broadcast(maxCars, old(c.Cars(spawning)), LuaRemove(vid)) != []
      ensures forall k | k in clients ::
        k.packetsSync == old(k.packetsSync)
          + Gained(k, c, c.id, Broadcast(maxCars, old(c.Cars(spawning)), LuaRemove(vid)))
      ensures removed <==> Filled(Lookup(old(c.vehicles), vid))
      ensures DistinctIds(old(c.vehicles)) ==>
        && OthersKept(old(c.vehicles), c.vehicles, vid)
        && Lookup(c.vehicles, vid) == (if removed then None else Lookup(old(c.vehicles), vid))
        && forall k | k in clients ::
             if removed then Gains(old(k.packetsSync), k.packetsSync, k.isSynced || k.isSyncing, c.id, Delete(vid))
             else k.packetsSync == old(k.packetsSync)
    {
      if DistinctIds(c.vehicles) {
        RemovalOutcome(maxCars, c.Cars(spawning), vid);
      }
      var data := c.GetCarData(vid);
      if data == JNull {
        return false;
      }
      BroadcastOp(c, Delete(vid));
      c.DeleteCar(vid);
      return true;
    }

    /** The client's vehicles are announced as deleted to the others, then it is forgotten. */
    method OnDisconnect(c: Client)
      requires c in clients
      modifies this`clients, c`vehicles, c`disconnectState, c`socketOpen, clients`packetsSync
      ensures clients == old(clients) - {c}
      ensures c.vehicles == [] && c.disconnectState != Connected
      ensures forall k | k in old(clients) && k != c ::
        k.packetsSync == old(k.packetsSync) + if Listening(k) then Farewell(c.id, old(c.vehicles), c.name) else []
    {
      var cars := c.vehicles;
      ghost var sent := [];
      for i := 0 to |cars|
        invariant clients == old(clients) && cars == old(c.vehicles)
        invariant sent == Messages(Packets(c.id, LeaveOps(cars[..i])))
        invariant forall k | k in clients && k != c ::
          k.packetsSync == old(k.packetsSync) + if Listening(k) then sent else []
      {
        var m := VehicleMessage(Packet(c.id, Delete(cars[i].id)));
        SendToAll(c, m, false);
        sent := sent + [m];
        assert cars[..i + 1] == cars[..i] + [cars[i]];
      }
      assert cars[..|cars|] == cars;
      SendToAll(c, Notice("L" + c.name + " left the server!"), false);
      var _ := c.Disconnect();
      RemoveClient(c);
      forall k | k in old(clients) && k != c
        ensures k.packetsSync
          == old(k.packetsSync) + if Listening(k) then Farewell(c.id, old(c.vehicles), c.name) else []
      {
        if Listening(k) {
          assert old(k.packetsSync) + sent + [Notice("L" + c.name + " left the server!")]
              == old(k.packetsSync) + (sent + [Notice("L" + c.name + " left the server!")]);
        }
      }
    }
  }

  /** What the others are sent for a client that leaves. */
  function Farewell(pid: int, vs: seq<Vehicle>, name: string): seq<Message> {
    Messages(Packets(pid, LeaveOps(vs))) + [Notice("L" + name + " left the server!")]
  }
}
