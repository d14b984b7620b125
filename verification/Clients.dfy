/** One connected player: its vehicles, its outgoing queue, its UDP endpoint and its disconnect state. */
module Clients {
  import opened Json
  import opened Octets
  import opened Vehicles
  import opened Wrappers

  datatype Endpoint = Endpoint(address: string, port: nat)

  /** The default-constructed endpoint: no endpoint yet. */
  const NO_ENDPOINT := Endpoint("0.0.0.0", 0)

  /**
   Packets to a client, decoded: vehicle packets, notices such as chat lines, and the spawn packet that its owner gets
   back when the spawn is refused, parsed or not.
   */
  datatype Message = VehicleMessage(packet: Packet) | Notice(text: string) | SentBack(vid: int, doc: Option<Json>)

  function Messages(ps: seq<Packet>): seq<Message> {
    seq(|ps|, i requires 0 <= i < |ps| => VehicleMessage(ps[i]))
  }

  datatype DisconnectState = Connected | Disconnecting | Disconnected

  class Client {
    var id: int
    var name: string
    var vehicles: seq<Vehicle>
    var positions: map<int, string>
    var unicycleId: int
    var isSynced: bool
    var isSyncing: bool
    var packetsSync: seq<Message>
    var udpAddress: Endpoint
    var isUdpConnected: bool
    var magic: Bytes
    var disconnectState: DisconnectState
    var socketOpen: bool

    constructor ()
      ensures id == -1 && name == "Unknown Client" && Cars(None) == NEW_CLIENT && positions == map[]
      ensures !isSynced && !isSyncing && packetsSync == []
      ensures udpAddress == NO_ENDPOINT && !isUdpConnected && magic == []
      ensures disconnectState == Connected && socketOpen
    {
      id, name := -1, "Unknown Client";
      vehicles, positions, unicycleId := [], map[], -1;
      isSynced, isSyncing, packetsSync := false, false, [];
      udpAddress, isUdpConnected, magic := NO_ENDPOINT, false, [];
      disconnectState, socketOpen := Connected, true;
    }

    /** The client's car state, with the identifier of a spawn in progress. */
    ghost function Cars(spawning: Option<int>): CarState
      reads this`vehicles, this`unicycleId
    {
      CarState(vehicles, unicycleId, spawning)
    }

    /** Passes over the list until a whole pass finds the candidate unused. */
    method GetOpenCarID() returns (openId: int)
      ensures openId == LeastFree(Ids(vehicles))
      ensures openId <= |vehicles|
    {
      openId := 0;
      var found := false;
      IdsBound(vehicles);
      while !found
        invariant 0 <= openId <= |Ids(vehicles)|
        invariant forall k | 0 <= k < openId :: k in Ids(vehicles)
        invariant found ==> openId !in Ids(vehicles)
        decreases !found, |Ids(vehicles)| - openId
      {
        found := true;
        var start := openId;
        for i := 0 to |vehicles|
          invariant start <= openId
          invariant forall k | 0 <= k < openId :: k in Ids(vehicles)
          invariant found <==> openId == start
          invariant found ==> forall j | 0 <= j < i :: vehicles[j].id != openId
        {
          if vehicles[i].id == openId {
            assert vehicles[i] in vehicles;
            openId := openId + 1;
            found := false;
          }
        }
        OpenIdBound(Ids(vehicles), openId);
      }
      OpenIdUnique(Ids(vehicles), openId, LeastFree(Ids(vehicles)));
    }

    method AddNewCar(ident: int, data: Json)
      modifies this`vehicles
      ensures vehicles == old(vehicles) + [Vehicle(ident, data)]
    {
      vehicles := vehicles + [Vehicle(ident, data)];
    }

    /** Where the first vehicle with the identifier stands; the list's length if there is none. */
    method FindVehicle(ident: int) returns (i: nat)
      ensures i <= |vehicles|
      ensures i < |vehicles| <==> ident in Ids(vehicles)
      ensures i < |vehicles| ==> vehicles[i].id == ident
      ensures forall j | 0 <= j < i :: vehicles[j].id != ident
    {
      i := 0;
      while i < |vehicles| && vehicles[i].id != ident
        invariant i <= |vehicles|
        invariant forall j | 0 <= j < i :: vehicles[j].id != ident
      {
        i := i + 1;
      }
      if i < |vehicles| {
        assert vehicles[i] in vehicles;
      }
    }

    method DeleteCar(ident: int)
      modifies this`vehicles
      ensures vehicles == DeleteFirst(old(vehicles), ident)
    {
      var i := FindVehicle(ident);
      if i < |vehicles| {
        DeleteAt(vehicles, i, ident);
        vehicles := vehicles[..i] + vehicles[i + 1..];
      } else {
        AbsentUnchanged(vehicles, ident);
      }
    }

    method ClearCars()
      modifies this`vehicles
      ensures vehicles == []
    {
      vehicles := [];
    }

    /** JNull when there is no such vehicle. The list stays as it is in either case. */
    method GetCarData(ident: int) returns (data: Json)
      modifies this`vehicles
      ensures vehicles == old(vehicles)
      ensures data == match Lookup(vehicles, ident) case Some(d) => d case None => JNull
    {
      var i := FindVehicle(ident);
      if i < |vehicles| {
        LookupAt(vehicles, i, ident);
        return vehicles[i].data;
      }
      AbsentUnchanged(vehicles, ident);
      DeleteCar(ident);
      return JNull;
    }

    method SetCarData(ident: int, data: Json)
      modifies this`vehicles
      ensures vehicles == SetFirst(old(vehicles), ident, data)
    {
      var i := FindVehicle(ident);
      if i < |vehicles| {
        SetAt(vehicles, i, ident, data);
        vehicles := vehicles[i := Vehicle(ident, data)];
      } else {
        AbsentUnchanged(vehicles, ident);
        DeleteCar(ident);
      }
    }

    method GetCarCount() returns (count: int)
      ensures count == CarCount(vehicles, unicycleId)
    {
      var i := FindVehicle(unicycleId);
      count := if i < |vehicles| then |vehicles| - 1 else |vehicles|;
    }

    method EnqueuePacket(m: Message)
      modifies this`packetsSync
      ensures packetsSync == old(packetsSync) + [m]
    {
      packetsSync := packetsSync + [m];
    }

    method SetCarPosition(ident: int, data: string)
      modifies this`positions
      ensures positions == old(positions)[ident := data]
    {
      positions := positions[ident := data];
    }

    /** True for the one caller that takes the client out of the connected state. */
    method Disconnect() returns (won: bool)
      modifies this`disconnectState, this`socketOpen
      ensures won <==> old(disconnectState) == Connected
      ensures won ==> disconnectState == Disconnected && !socketOpen
      ensures !won ==> disconnectState == old(disconnectState) && socketOpen == old(socketOpen)
    {
      if disconnectState != Connected {
        return false;
      }
      disconnectState := Disconnecting;
      if socketOpen {
        socketOpen := false;
      }
      disconnectState := Disconnected;
      return true;
    }
  }
}
