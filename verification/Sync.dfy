/**
 The two threads that bring a joining client up to date, as they run on the client objects: the sync that sends it
 everybody else's vehicles, and the looper that sends what has been queued. Module Replication takes them apart
 into the steps between which other handlers run; here every method runs through.
 */
module Sync {
  import opened Clients
  import opened Json
  import opened Server
  import opened Vehicles
  import opened Wrappers
  import Replication

  /** The packets of one client's list. */
  function Snapshot(pid: int, vs: seq<Vehicle>): seq<Message> {
    Messages(Packets(pid, Replication.SnapshotOps(vs)))
  }

  /** The lists of all the clients visited, but for the joiner's own. */
  ghost function Snapshots(order: seq<Client>, joiner: Client): seq<Message>
    reads order`id, order`vehicles
    decreases |order|
  {
    if order == [] then []
    else
      var last := order[|order| - 1];
      Snapshots(order[..|order| - 1], joiner) + if last == joiner then [] else Snapshot(last.id, last.vehicles)
  }

  /** All clients, each once, in the order in which they are visited. */
  ghost predicate Visits(clients: set<Client>, order: seq<Client>) {
    VisitsSome(clients, order) && forall c | c in clients :: c in order
  }

  /** The vehicle packets among the messages, as the joiner's replica receives them. */
  function PacketsOf(ms: seq<Message>): seq<Packet> {
    if ms == [] then []
    else PacketsOf(ms[..|ms| - 1]) + match ms[|ms| - 1] case VehicleMessage(p) => [p] case _ => []
  }

  lemma {:induction false} PacketsOfMessages(ps: seq<Packet>)
    ensures PacketsOf(Messages(ps)) == ps
  {
    if ps != [] {
      var init := ps[..|ps| - 1];
      PacketsOfMessages(init);
      assert Messages(ps)[..|ps| - 1] == Messages(init);
      assert ps == init + [ps[|ps| - 1]];
    }
  }

  lemma {:induction false} PacketsOfAppend(a: seq<Message>, b: seq<Message>)
    ensures PacketsOf(a + b) == PacketsOf(a) + PacketsOf(b)
    decreases |b|
  {
    if b == [] {
      assert a + b == a;
    } else {
      var init := b[..|b| - 1];
      PacketsOfAppend(a, init);
      assert (a + b)[..|a + b| - 1] == a + init;
    }
  }

  /** What an empty replica holds after the snapshots, of one slot. */
  ghost function ShownSlot(order: seq<Client>, joiner: Client, k: Replication.Key): Option<Json>
    reads order`id, order`vehicles
    decreases |order|
  {
    if order == [] then None
    else
      var last := order[|order| - 1];
      if last != joiner && last.id == k.pid && Lookup(last.vehicles, k.vid).Some?
      then Lookup(last.vehicles, k.vid)
      else ShownSlot(order[..|order| - 1], joiner, k)
  }

  lemma {:induction false} SnapshotsShow(order: seq<Client>, joiner: Client, k: Replication.Key)
    requires forall o | o in order :: DistinctIds(o.vehicles)
    ensures Replication.Replay(None, k, PacketsOf(Snapshots(order, joiner))) == ShownSlot(order, joiner, k)
    decreases |order|
  {
    if order != [] {
      var init, last := order[..|order| - 1], order[|order| - 1];
      SnapshotsShow(init, joiner, k);
      var shown := PacketsOf(Snapshots(init, joiner));
      if last == joiner {
        assert Snapshots(order, joiner) == Snapshots(init, joiner);
      }
      if last != joiner {
        var ps := Packets(last.id, Replication.SnapshotOps(last.vehicles));
        assert last in order && DistinctIds(last.vehicles);
        assert Snapshots(order, joiner) == Snapshots(init, joiner) + Snapshot(last.id, last.vehicles);
        PacketsOfAppend(Snapshots(init, joiner), Snapshot(last.id, last.vehicles));
        PacketsOfMessages(ps);
        Replication.ReplayAppend(None, k, shown, ps);
        if last.id == k.pid {
          Replication.SnapshotReplay(Replication.Replay(None, k, shown), last.vehicles, k);
        } else {
          Replication.UntouchedReplay(Replication.Replay(None, k, shown), k, ps);
        }
      }
    }
  }

  lemma {:induction false} ShownIsOwners(order: seq<Client>, joiner: Client, o: Client, vid: int)
    requires forall i, j | 0 <= i < j < |order| :: order[i] != order[j]
    requires forall a, b | a in order && b in order && a != b && a.id >= 0 :: a.id != b.id
    requires o.id >= 0 && (o in order ==> o != joiner)
    requires o !in order ==> forall a | a in order :: a.id != o.id
    ensures ShownSlot(order, joiner, Replication.Key(o.id, vid))
      == if o in order then Lookup(o.vehicles, vid) else None
    decreases |order|
  {
    if order != [] {
      var init, last := order[..|order| - 1], order[|order| - 1];
      assert order == init + [last];
      if last == o {
        assert o !in init;
      }
      ShownIsOwners(init, joiner, o, vid);
    }
  }

  /** The messages of the snapshots are the vehicles of the clients visited, each as a spawn of its owner. */
  lemma {:induction false} SnapshotsSpawn(order: seq<Client>, joiner: Client, m: Message)
    ensures m in Snapshots(order, joiner) <==> exists o, i ::
      o in order && o != joiner && 0 <= i < |o.vehicles|
      && m == VehicleMessage(Packet(o.id, Spawn(o.vehicles[i].id, o.vehicles[i].data)))
    decreases |order|
  {
    if order != [] {
      var init, last := order[..|order| - 1], order[|order| - 1];
      assert order == init + [last];
      SnapshotsSpawn(init, joiner, m);
      if last != joiner && m in Snapshot(last.id, last.vehicles) {
        var i :| 0 <= i < |last.vehicles| && Snapshot(last.id, last.vehicles)[i] == m;
        assert last in order;
      }
      if o, i :|
        o in order && o != joiner && 0 <= i < |o.vehicles|
        && m == VehicleMessage(Packet(o.id, Spawn(o.vehicles[i].id, o.vehicles[i].data)))
      {
        if o == last {
          assert Snapshot(last.id, last.vehicles)[i] == m;
        }
      }
    }
  }

  ghost predicate VisitsSome(clients: set<Client>, order: seq<Client>) {
    && (forall c | c in order :: c in clients)
    && (forall i, j | 0 <= i < j < |order| :: order[i] != order[j])
  }

  function Welcome(name: string): Message {
    Notice("JWelcome " + name + "!")
  }

  ghost predicate AllDistinct(clients: set<Client>)
    reads clients`vehicles
  {
    forall o | o in clients :: DistinctIds(o.vehicles)
  }

  /** Sends one client's list after what has been sent, up to the packet before which the receiver is gone. */
  method SendList(before: seq<Message>, pid: int, vs: seq<Vehicle>, stays: nat) returns (sent: seq<Message>, gone: bool)
    requires |before| <= stays
    ensures gone <==> |before + Snapshot(pid, vs)| > stays
    ensures sent == (before + Snapshot(pid, vs))[..if gone then stays else |before + Snapshot(pid, vs)|]
  {
    sent, gone := before, false;
    var all := Snapshot(pid, vs);
    for i := 0 to |vs|
      invariant sent == before + all[..i] && |sent| <= stays
    {
      if |sent| == stays {
        return sent, true;
      }
      sent := sent + [all[i]];
    }
  }

  /**
   `named` says whether the first packet, with the client's name, could be sent; `stays` how many of the tests
   before each packet find the client still connected.
   */
  method SyncClient(server: Server, c: Client, named: bool, stays: nat)
    returns (ok: bool, sent: seq<Message>, ghost order: seq<Client>)
    requires c in server.clients && !c.isSyncing
    modifies c`isSyncing, c`isSynced, server.clients`packetsSync
    ensures !c.isSyncing
    ensures old(c.isSynced) || !named ==> ok == old(c.isSynced) == c.isSynced && sent == []
    ensures !old(c.isSynced) && named ==>
      && VisitsSome(server.clients, order)
      && ok == c.isSynced == (|Snapshots(order, c)| <= stays)
      && sent == Snapshots(order, c)[..if ok then |Snapshots(order, c)| else stays]
      && (ok ==> Visits(server.clients, order))
    ensures !old(c.isSynced) && ok ==>
      && (forall o, i | o in server.clients && o != c && 0 <= i < |o.vehicles| ::
            VehicleMessage(Packet(o.id, Spawn(o.vehicles[i].id, o.vehicles[i].data))) in sent)
      && forall m | m in sent :: exists o, i ::
           o in server.clients && o != c && 0 <= i < |o.vehicles|
           && m == VehicleMessage(Packet(o.id, Spawn(o.vehicles[i].id, o.vehicles[i].data)))
    ensures !old(c.isSynced) && ok && DistinctPlayers(server.clients) && AllDistinct(server.clients) ==>
      forall o, vid | o in server.clients && o != c && o.id >= 0 ::
        Replication.Get(Replication.ReceiveAll(map[], PacketsOf(sent)), Replication.Key(o.id, vid))
        == Lookup(o.vehicles, vid)
    ensures forall k | k in server.clients ::
      k.packetsSync == old(k.packetsSync)
        + if !old(c.isSynced) && named && k != c && old(k.isSynced || k.isSyncing)
          then [Notice("JWelcome " + c.name + "!")] else []
  {
    sent, order := [], [];
    if c.isSynced {
      return true, sent, order;
    }
    if !named {
      return false, sent, order;
    }
    server.SendToAll(c, Welcome(c.name), false);
    c.isSyncing := true;
    var gone: bool;
    sent, gone, order := VisitAll(server.clients, c, stays);
    c.isSyncing := false;
    if gone {
      return false, sent, order;
    }
    c.isSynced := true;
    ok := true;
    SyncShows(server.clients, order, c, sent);
  }

  /** What has been sent to the joiner once all clients are visited. */
  lemma SyncShows(clients: set<Client>, order: seq<Client>, c: Client, sent: seq<Message>)
    requires Visits(clients, order) && sent == Snapshots(order, c)
    ensures forall o, i | o in clients && o != c && 0 <= i < |o.vehicles| ::
      VehicleMessage(Packet(o.id, Spawn(o.vehicles[i].id, o.vehicles[i].data))) in sent
    ensures forall m | m in sent :: exists o, i ::
      o in clients && o != c && 0 <= i < |o.vehicles|
      && m == VehicleMessage(Packet(o.id, Spawn(o.vehicles[i].id, o.vehicles[i].data)))
    ensures DistinctPlayers(clients) && AllDistinct(clients) ==>
      forall o, vid | o in clients && o != c && o.id >= 0 ::
        Replication.Get(Replication.ReceiveAll(map[], PacketsOf(sent)), Replication.Key(o.id, vid))
        == Lookup(o.vehicles, vid)
  {
    forall o, i | o in clients && o != c && 0 <= i < |o.vehicles|
      ensures VehicleMessage(Packet(o.id, Spawn(o.vehicles[i].id, o.vehicles[i].data))) in sent
    {
      SnapshotsSpawn(order, c, VehicleMessage(Packet(o.id, Spawn(o.vehicles[i].id, o.vehicles[i].data))));
    }
    forall m | m in sent ensures exists o, i ::
      o in clients && o != c && 0 <= i < |o.vehicles|
      && m == VehicleMessage(Packet(o.id, Spawn(o.vehicles[i].id, o.vehicles[i].data)))
    {
      SnapshotsSpawn(order, c, m);
    }
    if DistinctPlayers(clients) && AllDistinct(clients) {
      forall o, vid | o in clients && o != c && o.id >= 0
        ensures Replication.Get(Replication.ReceiveAll(map[], PacketsOf(sent)), Replication.Key(o.id, vid))
          == Lookup(o.vehicles, vid)
      {
        var k := Replication.Key(o.id, vid);
        Replication.ReceiveAllIsReplay(map[], PacketsOf(sent), k);
        SnapshotsShow(order, c, k);
        ShownIsOwners(order, c, o, vid);
      }
    }
  }

  /** Visits the clients in some order, until all are visited or the joiner is gone. */
  method VisitAll(clients: set<Client>, c: Client, stays: nat)
    returns (sent: seq<Message>, gone: bool, ghost order: seq<Client>)
    ensures VisitsSome(clients, order) && (!gone ==> Visits(clients, order))
    ensures gone <==> |Snapshots(order, c)| > stays
    ensures sent == Snapshots(order, c)[..if gone then stays else |Snapshots(order, c)|]
  {
    sent, gone, order := [], false, [];
    var rest := clients;
    while rest != {}
      invariant rest <= clients && Visits(clients - rest, order)
      invariant sent == Snapshots(order, c) && |sent| <= stays
      decreases rest
    {
      var o :| o in rest;
      SnapshotsOneMore(order, o, c);
      rest, order := rest - {o}, order + [o];
      if o != c {
        sent, gone := SendList(sent, o.id, o.vehicles, stays);
        if gone {
          return;
        }
      }
    }
  }

  lemma SnapshotsOneMore(order: seq<Client>, o: Client, joiner: Client)
    ensures Snapshots(order + [o], joiner)
      == Snapshots(order, joiner) + if o == joiner then [] else Snapshot(o.id, o.vehicles)
  {
    assert (order + [o])[..|order|] == order;
  }

  /** One turn of the looper. The send of the message at index `fails`, if there is one, does not succeed. */
  method DrainQueue(c: Client, fails: nat) returns (delivered: seq<Message>)
    modifies c`packetsSync, c`disconnectState, c`socketOpen
    ensures old(c.disconnectState) == Connected && c.isSynced && !c.isSyncing ==>
      && c.packetsSync == []
      && delivered == old(c.packetsSync)[..if fails < |old(c.packetsSync)| then fails else |old(c.packetsSync)|]
      && c.disconnectState == if fails < |old(c.packetsSync)| then Disconnected else Connected
    ensures !(old(c.disconnectState) == Connected && c.isSynced && !c.isSyncing) ==>
      delivered == [] && c.packetsSync == old(c.packetsSync) && c.disconnectState == old(c.disconnectState)
  {
    delivered := [];
    if c.disconnectState != Connected || c.isSyncing || !c.isSynced {
      return;
    }
    while c.packetsSync != []
      invariant |delivered| <= fails && c.disconnectState == old(c.disconnectState)
      invariant delivered + c.packetsSync == old(c.packetsSync)
      decreases |c.packetsSync|
    {
      var data := c.packetsSync[0];
      c.packetsSync := c.packetsSync[1..];
      if |delivered| == fails {
        var _ := c.Disconnect();
        c.packetsSync := [];
        return;
      }
      delivered := delivered + [data];
    }
  }

  lemma BroadcastsAtMostOne(maxCars: int, s: CarState, e: CarEvent)
    requires Enabled(s, e)
    ensures |Broadcast(maxCars, s, e)| <= 1
  {
  }

  /** What a handler puts into the joiner's queue is what the replication protocol says it hears. */
  lemma GainedIsHeard(s: Replication.System, joiner: Client, sender: Client, maxCars: int, state: CarState, e: CarEvent)
    requires Enabled(state, e)
    requires Listening(joiner) <==> !s.phase.Joining?
    requires joiner == sender <==> sender.id == s.joiner
    ensures
      var ops := Broadcast(maxCars, state, e);
      Gained(joiner, sender, sender.id, ops) == Messages(Replication.Heard(s, sender.id, ops))
  {
    var ops := Broadcast(maxCars, state, e);
    BroadcastsAtMostOne(maxCars, state, e);
    if ops != [] {
      assert ops == [ops[0]];
      GainedOne(joiner, sender, sender.id, ops[0]);
    }
  }

  /** The same of a client that leaves, but for the notice. */
  lemma FarewellIsHeard(s: Replication.System, joiner: Client, leaver: Client, vs: seq<Vehicle>)
    requires leaver.id != s.joiner && !s.phase.Joining?
    ensures Farewell(leaver.id, vs, leaver.name)
      == Messages(Replication.Heard(s, leaver.id, LeaveOps(vs))) + [Notice("L" + leaver.name + " left the server!")]
  {
  }
}
