/**
 A client's vehicle list and everything the packet handlers do to it, on plain values:
 the list operations of TClient, the effect of each vehicle packet, and one handler per step.
 */
module Vehicles {
  import opened Json
  import opened Wrappers

  datatype Vehicle = Vehicle(id: int, data: Json)

  /** What a vehicle packet says. A payload that does not parse is None. */
  datatype VehicleOp =
    | Spawn(vid: int, data: Json)
    | Edit(vid: int, config: Option<map<string, Json>>)
    | Paint(vid: int, paints: Option<seq<Json>>)
    | Delete(vid: int)

  /** A vehicle packet as other clients get it: whose vehicle, and what happened to it. */
  datatype Packet = Packet(pid: int, op: VehicleOp)

  function Packets(pid: int, ops: seq<VehicleOp>): seq<Packet> {
    seq(|ops|, i requires 0 <= i < |ops| => Packet(pid, ops[i]))
  }

  /** What is sent for a client that leaves. */
  function LeaveOps(vs: seq<Vehicle>): seq<VehicleOp> {
    seq(|vs|, i requires 0 <= i < |vs| => Delete(vs[i].id))
  }

  /*******************************************************************************
   *  The vehicle list
   *******************************************************************************/

  function Ids(vs: seq<Vehicle>): set<int> {
    set v | v in vs :: v.id
  }

  ghost predicate DistinctIds(vs: seq<Vehicle>) {
    forall i, j | 0 <= i < j < |vs| :: vs[i].id != vs[j].id
  }

  function Lookup(vs: seq<Vehicle>, vid: int): Option<Json> {
    if vs == [] then None
    else if vs[0].id == vid then Some(vs[0].data)
    else Lookup(vs[1..], vid)
  }

  function DeleteFirst(vs: seq<Vehicle>, vid: int): seq<Vehicle> {
    if vs == [] then []
    else if vs[0].id == vid then vs[1..]
    else [vs[0]] + DeleteFirst(vs[1..], vid)
  }

  function SetFirst(vs: seq<Vehicle>, vid: int, data: Json): seq<Vehicle> {
    if vs == [] then []
    else if vs[0].id == vid then [Vehicle(vid, data)] + vs[1..]
    else [vs[0]] + SetFirst(vs[1..], vid, data)
  }

  /** Vehicles that count towards the limit: all but the one filling the unicycle slot. */
  function CarCount(vs: seq<Vehicle>, unicycleId: int): int {
    if unicycleId in Ids(vs) then |vs| - 1 else |vs|
  }

  lemma {:induction false} LookupIffId(vs: seq<Vehicle>, vid: int)
    ensures Lookup(vs, vid).Some? <==> vid in Ids(vs)
  {
    if vs != [] {
      LookupIffId(vs[1..], vid);
      assert vs == [vs[0]] + vs[1..];
      assert Ids(vs) == {vs[0].id} + Ids(vs[1..]);
    }
  }

  /** The index at which a vehicle is found first. */
  predicate FirstAt(vs: seq<Vehicle>, i: nat, vid: int) {
    && i < |vs| && vs[i].id == vid
    && forall j | 0 <= j < i :: vs[j].id != vid
  }

  lemma {:induction false} DeleteAt(vs: seq<Vehicle>, i: nat, vid: int)
    requires FirstAt(vs, i, vid)
    ensures DeleteFirst(vs, vid) == vs[..i] + vs[i + 1..]
  {
    if i > 0 {
      var rest := vs[1..];
      DeleteAt(rest, i - 1, vid);
      assert [vs[0]] + rest[..i - 1] == vs[..i] && rest[i..] == vs[i + 1..];
      assert DeleteFirst(vs, vid) == [vs[0]] + DeleteFirst(rest, vid);
    }
  }

  lemma {:induction false} LookupAt(vs: seq<Vehicle>, i: nat, vid: int)
    requires FirstAt(vs, i, vid)
    ensures Lookup(vs, vid) == Some(vs[i].data)
  {
    if i > 0 {
      LookupAt(vs[1..], i - 1, vid);
    }
  }

  lemma {:induction false} SetAt(vs: seq<Vehicle>, i: nat, vid: int, d: Json)
    requires FirstAt(vs, i, vid)
    ensures SetFirst(vs, vid, d) == vs[i := Vehicle(vid, d)]
  {
    if i > 0 {
      SetAt(vs[1..], i - 1, vid, d);
    }
  }

  lemma {:induction false} AbsentUnchanged(vs: seq<Vehicle>, vid: int)
    requires vid !in Ids(vs)
    ensures Lookup(vs, vid) == None
    ensures DeleteFirst(vs, vid) == vs
    ensures forall d :: SetFirst(vs, vid, d) == vs
  {
    if vs != [] {
      assert vs[0] in vs;
      assert vs[0].id in Ids(vs);
      assert Ids(vs[1..]) <= Ids(vs);
      AbsentUnchanged(vs[1..], vid);
    }
  }

  lemma {:induction false} LookupAppend(vs: seq<Vehicle>, v: Vehicle, vid: int)
    ensures Lookup(vs + [v], vid)
         == if Lookup(vs, vid).Some? then Lookup(vs, vid) else if v.id == vid then Some(v.data) else None
  {
    if vs == [] {
      assert vs + [v] == [v];
      assert [v][1..] == [];
    } else {
      assert (vs + [v])[1..] == vs[1..] + [v];
      LookupAppend(vs[1..], v, vid);
    }
  }

  lemma {:induction false} LookupSet(vs: seq<Vehicle>, vid: int, data: Json, other: int)
    ensures Lookup(SetFirst(vs, vid, data), other)
         == if other == vid && Lookup(vs, vid).Some? then Some(data) else Lookup(vs, other)
  {
    if vs != [] && vs[0].id != vid {
      LookupSet(vs[1..], vid, data, other);
    }
  }

  lemma {:induction false} LookupDelete(vs: seq<Vehicle>, vid: int, other: int)
    requires DistinctIds(vs)
    ensures Lookup(DeleteFirst(vs, vid), other) == if other == vid then None else Lookup(vs, other)
  {
    if vs != [] {
      if vs[0].id == vid {
        LookupIffId(vs[1..], vid);
      } else {
        LookupDelete(vs[1..], vid, other);
      }
    }
  }

  /** Replacing a vehicle's data leaves the identifiers, in order, as they were. */
  lemma {:induction false} SetKeepsIds(vs: seq<Vehicle>, vid: int, data: Json)
    ensures |SetFirst(vs, vid, data)| == |vs|
    ensures forall i | 0 <= i < |vs| :: SetFirst(vs, vid, data)[i].id == vs[i].id
    ensures Ids(SetFirst(vs, vid, data)) == Ids(vs)
  {
    if vs != [] && vs[0].id != vid {
      SetKeepsIds(vs[1..], vid, data);
    }
    var r := SetFirst(vs, vid, data);
    assert forall i | 0 <= i < |vs| :: r[i].id == vs[i].id;
    forall id | id in Ids(vs) ensures id in Ids(r) {
      var i :| 0 <= i < |vs| && vs[i].id == id;
      assert r[i] in r;
    }
    forall id | id in Ids(r) ensures id in Ids(vs) {
      var i :| 0 <= i < |r| && r[i].id == id;
      assert vs[i] in vs;
    }
  }

  lemma {:induction false} DeleteKeepsDistinct(vs: seq<Vehicle>, vid: int)
    requires DistinctIds(vs)
    ensures DistinctIds(DeleteFirst(vs, vid))
    ensures Ids(DeleteFirst(vs, vid)) == Ids(vs) - {vid}
    ensures |DeleteFirst(vs, vid)| == if vid in Ids(vs) then |vs| - 1 else |vs|
  {
    if vs != [] {
      var tail := vs[1..];
      IdsOfCons(vs);
      if vs[0].id != vid {
        DeleteKeepsDistinct(tail, vid);
        IdsOfCons(DeleteFirst(vs, vid));
        DistinctCons(vs[0], DeleteFirst(tail, vid));
      }
    }
  }

  lemma IdsOfCons(vs: seq<Vehicle>)
    requires vs != []
    ensures Ids(vs) == {vs[0].id} + Ids(vs[1..])
    ensures DistinctIds(vs) ==> vs[0].id !in Ids(vs[1..])
  {
    assert vs == [vs[0]] + vs[1..];
  }

  lemma {:induction false} IdsBound(vs: seq<Vehicle>)
    ensures |Ids(vs)| <= |vs|
  {
    if vs != [] {
      IdsOfCons(vs);
      IdsBound(vs[1..]);
    }
  }

  lemma DistinctCons(v: Vehicle, vs: seq<Vehicle>)
    requires DistinctIds(vs) && v.id !in Ids(vs)
    ensures DistinctIds([v] + vs)
  {
    forall j | 0 <= j < |vs| ensures vs[j].id != v.id {
      assert vs[j] in vs;
    }
  }

  lemma AppendKeepsDistinct(vs: seq<Vehicle>, v: Vehicle)
    requires DistinctIds(vs) && v.id !in Ids(vs)
    ensures DistinctIds(vs + [v])
    ensures Ids(vs + [v]) == Ids(vs) + {v.id}
  {
    var r := vs + [v];
    assert r[|vs|] in r;
    forall id | id in Ids(vs) ensures id in Ids(r) {
      var w :| w in vs && w.id == id;
      assert w in r;
    }
    forall i | 0 <= i < |vs| ensures vs[i].id != v.id {
      assert vs[i] in vs;
    }
  }

  /*******************************************************************************
   *  What each packet does
   *******************************************************************************/

  /** Whether a stored configuration has a "vcf" object holding a "paints" array. */
  predicate Paintable(j: Json) {
    && j.JObj?
    && "vcf" in j.fields && j.fields["vcf"].JObj?
    && "paints" in j.fields["vcf"].fields && j.fields["vcf"].fields["paints"].JArr?
  }

  function Repaint(j: Json, paints: seq<Json>): Json
    requires Paintable(j)
  {
    JObj(j.fields["vcf" := JObj(j.fields["vcf"].fields["paints" := JArr(paints)])])
  }

  /** The effect of one packet on one vehicle slot; this is also how a replica applies it. */
  function Effect(slot: Option<Json>, op: VehicleOp): Option<Json> {
    match op
    case Spawn(_, data) => Some(data)
    case Edit(_, config) =>
      if slot.Some? && slot.value != JNull && config.Some? then Some(JObj(config.value)) else slot
    case Paint(_, paints) =>
      if slot.Some? && paints.Some? && Paintable(slot.value) then Some(Repaint(slot.value, paints.value)) else slot
    case Delete(_) => None
  }

  /** The effect of one packet on the sender's list at the server. */
  function ApplyOp(vs: seq<Vehicle>, op: VehicleOp): seq<Vehicle> {
    match op
    case Spawn(vid, data) => vs + [Vehicle(vid, data)]
    case Edit(vid, config) =>
      var current := Lookup(vs, vid);
      if current.None? || current.value == JNull || config.None? then vs else SetFirst(vs, vid, JObj(config.value))
    case Paint(vid, paints) =>
      var current := Lookup(vs, vid);
      if current.Some? && paints.Some? && Paintable(current.value)
      then SetFirst(vs, vid, Repaint(current.value, paints.value)) else vs
    case Delete(vid) => DeleteFirst(vs, vid)
  }

  function ApplyOps(vs: seq<Vehicle>, ops: seq<VehicleOp>): seq<Vehicle>
    decreases |ops|
  {
    if ops == [] then vs else ApplyOps(ApplyOp(vs, ops[0]), ops[1..])
  }

  /** The list seen slot by slot: an operation changes its own slot by Effect and no other. */
  lemma ApplyOpIsEffect(vs: seq<Vehicle>, op: VehicleOp, vid: int)
    requires DistinctIds(vs)
    requires op.Spawn? ==> op.vid !in Ids(vs)
    ensures Lookup(ApplyOp(vs, op), vid)
         == if vid == op.vid then Effect(Lookup(vs, vid), op) else Lookup(vs, vid)
  {
    match op
    case Spawn(v, data) =>
      LookupIffId(vs, v);
      LookupAppend(vs, Vehicle(v, data), vid);
    case Edit(v, config) =>
      if config.Some? { LookupSet(vs, v, JObj(config.value), vid); }
    case Paint(v, paints) =>
      var current := Lookup(vs, v);
      if current.Some? && paints.Some? && Paintable(current.value) {
        LookupSet(vs, v, Repaint(current.value, paints.value), vid);
      }
    case Delete(v) =>
      LookupDelete(vs, v, vid);
  }

  /*******************************************************************************
   *  The handlers, one per step
   *******************************************************************************/

  /** `spawning` is the identifier chosen by a spawn whose Lua handlers are still running. */
  datatype CarState = CarState(vehicles: seq<Vehicle>, unicycleId: int, spawning: Option<int>)

  datatype CarEvent =
    | SpawnBegin
    | SpawnEnd(doc: Option<Json>, veto: bool)
    | EditCar(vid: int, config: Option<map<string, Json>>, veto: bool)
    | DeleteCar(vid: int)
    | PaintCar(vid: int, paints: Option<seq<Json>>)
    | LuaRemove(vid: int)

  predicate IsUnicycle(doc: Option<Json>) {
    doc.Some? && doc.value.JObj? && "jbm" in doc.value.fields && doc.value.fields["jbm"] == JStr("unicycle")
  }

  /** The least identifier that is non-negative and unused. */
  ghost predicate IsOpenId(ids: set<int>, id: int) {
    0 <= id && id !in ids && forall k | 0 <= k < id :: k in ids
  }

  /** The packet thread waits for the Lua handlers of a spawn; only Lua itself may act meanwhile. */
  ghost predicate Enabled(s: CarState, e: CarEvent) {
    match e
    case SpawnBegin => s.spawning.None?
    case SpawnEnd(_, _) => s.spawning.Some?
    case LuaRemove(_) => true
    case EditCar(vid, _, _) => s.spawning.None? && vid >= 0
    case DeleteCar(vid) => s.spawning.None? && vid >= 0
    case PaintCar(vid, _) => s.spawning.None? && vid >= 0
  }

  predicate ReservesUnicycle(s: CarState, doc: Option<Json>) {
    IsUnicycle(doc) && s.unicycleId < 0
  }

  predicate ShouldSpawn(maxCars: int, s: CarState, doc: Option<Json>) {
    ReservesUnicycle(s, doc) || CarCount(s.vehicles, s.unicycleId) < maxCars
  }

  predicate EditAllowed(s: CarState, vid: int, config: Option<map<string, Json>>, veto: bool) {
    && (s.unicycleId != vid || IsUnicycle(if config.Some? then Some(JObj(config.value)) else None))
    && !veto
  }

  /** The operations a handler sends to the other clients. */
  function Broadcast(maxCars: int, s: CarState, e: CarEvent): seq<VehicleOp> {
    match e
    case SpawnBegin => []
    case SpawnEnd(doc, veto) =>
      if s.spawning.Some? && ShouldSpawn(maxCars, s, doc) && !veto && doc.Some?
      then [Spawn(s.spawning.value, doc.value)] else []
    case EditCar(vid, config, veto) =>
      if EditAllowed(s, vid, config, veto) then [Edit(vid, config)] else [Delete(vid)]
    case DeleteCar(vid) => [Delete(vid)]
    case PaintCar(vid, paints) => [Paint(vid, paints)]
    case LuaRemove(vid) =>
      var current := Lookup(s.vehicles, vid);
      if current.Some? && current.value != JNull then [Delete(vid)] else []
  }

  /** The state a handler leaves behind. */
  ghost function CarNext(maxCars: int, s: CarState, e: CarEvent): CarState
    requires Enabled(s, e)
  {
    match e
    case SpawnBegin =>
      s.(spawning := Some(LeastFree(Ids(s.vehicles))))
    case SpawnEnd(doc, veto) =>
      var id := s.spawning.value;
      CarState(
        if ShouldSpawn(maxCars, s, doc) && !veto && doc.Some?
        then s.vehicles + [Vehicle(id, doc.value)] else s.vehicles,
        if ReservesUnicycle(s, doc) then id else s.unicycleId,
        None)
    case EditCar(vid, config, veto) =>
      if EditAllowed(s, vid, config, veto) then s.(vehicles := ApplyOp(s.vehicles, Edit(vid, config)))
      else s.(vehicles := DeleteFirst(s.vehicles, vid), unicycleId := if s.unicycleId == vid then -1 else s.unicycleId)
    case DeleteCar(vid) =>
      s.(vehicles := DeleteFirst(s.vehicles, vid), unicycleId := if s.unicycleId == vid then -1 else s.unicycleId)
    case PaintCar(vid, paints) => s.(vehicles := ApplyOp(s.vehicles, Paint(vid, paints)))
    case LuaRemove(vid) =>
      var current := Lookup(s.vehicles, vid);
      if current.Some? && current.value != JNull then s.(vehicles := DeleteFirst(s.vehicles, vid)) else s
  }

  /** Pigeonhole: a finite set leaves some identifier free, and no later than its own size. */
  lemma OpenIdExists(ids: set<int>)
    ensures exists id :: IsOpenId(ids, id)
  {
    var id := 0;
    while id in ids
      invariant 0 <= id && forall k | 0 <= k < id :: k in ids
      decreases |ids| - id
    {
      id := id + 1;
      OpenIdBound(ids, id);
    }
    assert IsOpenId(ids, id);
  }

  lemma {:induction false} OpenIdBound(ids: set<int>, id: int)
    requires 0 <= id && forall k | 0 <= k < id :: k in ids
    ensures id <= |ids|
  {
    if id > 0 {
      var rest := ids - {id - 1};
      OpenIdBound(rest, id - 1);
      assert ids == rest + {id - 1};
    }
  }

  ghost function LeastFree(ids: set<int>): (id: int)
    ensures IsOpenId(ids, id)
  {
    OpenIdExists(ids);
    var id :| IsOpenId(ids, id);
    id
  }

  lemma OpenIdUnique(ids: set<int>, a: int, b: int)
    requires IsOpenId(ids, a) && IsOpenId(ids, b)
    ensures a == b
  {
  }

  /** Every handler's change to the list is exactly what it broadcasts. */
  lemma BroadcastIsMutation(maxCars: int, s: CarState, e: CarEvent)
    requires Enabled(s, e)
    ensures CarNext(maxCars, s, e).vehicles == ApplyOps(s.vehicles, Broadcast(maxCars, s, e))
  {
    var ops := Broadcast(maxCars, s, e);
    if ops != [] {
      assert ops == [ops[0]];
      assert ops[1..] == [];
    }
  }

  /*******************************************************************************
   *  The car limit and distinct identifiers over whole runs
   *******************************************************************************/

  function Max(a: int, b: int): int {
    if a < b then b else a
  }

  ghost predicate CarInv(maxCars: int, s: CarState) {
    && DistinctIds(s.vehicles)
    && (forall id | id in Ids(s.vehicles) :: id >= 0)
    && CarCount(s.vehicles, s.unicycleId) <= Max(0, maxCars)
    && (s.spawning.Some? ==> s.spawning.value >= 0 && s.spawning.value !in Ids(s.vehicles))
  }

  lemma DeletePreserves(maxCars: int, s: CarState, vid: int, unicycleId: int)
    requires CarInv(maxCars, s)
    requires unicycleId == s.unicycleId || (s.unicycleId == vid && unicycleId == -1)
    ensures CarInv(maxCars, s.(vehicles := DeleteFirst(s.vehicles, vid), unicycleId := unicycleId))
  {
    DeleteKeepsDistinct(s.vehicles, vid);
  }

  lemma ApplyPreserves(maxCars: int, s: CarState, op: VehicleOp)
    requires CarInv(maxCars, s) && (op.Edit? || op.Paint?)
    ensures CarInv(maxCars, s.(vehicles := ApplyOp(s.vehicles, op)))
  {
    var vs := ApplyOp(s.vehicles, op);
    if vs != s.vehicles {
      var data :=
        if op.Edit? then JObj(op.config.value) else Repaint(Lookup(s.vehicles, op.vid).value, op.paints.value);
      assert vs == SetFirst(s.vehicles, op.vid, data);
      SetKeepsIds(s.vehicles, op.vid, data);
    }
  }

  lemma CarStepPreserves(maxCars: int, s: CarState, e: CarEvent)
    requires CarInv(maxCars, s) && Enabled(s, e)
    ensures CarInv(maxCars, CarNext(maxCars, s, e))
  {
    match e
    case SpawnBegin =>
    case SpawnEnd(doc, _) =>
      if doc.Some? { AppendKeepsDistinct(s.vehicles, Vehicle(s.spawning.value, doc.value)); }
    case EditCar(vid, config, veto) =>
      if EditAllowed(s, vid, config, veto) {
        ApplyPreserves(maxCars, s, Edit(vid, config));
      } else {
        DeletePreserves(maxCars, s, vid, if s.unicycleId == vid then -1 else s.unicycleId);
      }
    case DeleteCar(vid) =>
      DeletePreserves(maxCars, s, vid, if s.unicycleId == vid then -1 else s.unicycleId);
    case PaintCar(vid, paints) =>
      ApplyPreserves(maxCars, s, Paint(vid, paints));
    case LuaRemove(vid) =>
      DeletePreserves(maxCars, s, vid, s.unicycleId);
  }

  const NEW_CLIENT := CarState([], -1, None)

  /** A run of one client: each event enabled in the state it meets. */
  ghost predicate CarRun(maxCars: int, states: seq<CarState>, events: seq<CarEvent>) {
    && |states| == |events| + 1
    && states[0] == NEW_CLIENT
    && forall i | 0 <= i < |events| ::
         Enabled(states[i], events[i]) && states[i + 1] == CarNext(maxCars, states[i], events[i])
  }

  lemma {:induction false} CarRunInv(maxCars: int, states: seq<CarState>, events: seq<CarEvent>, n: nat)
    requires CarRun(maxCars, states, events) && n < |states|
    ensures CarInv(maxCars, states[n])
  {
    if n > 0 {
      CarRunInv(maxCars, states, events, n - 1);
      CarStepPreserves(maxCars, states[n - 1], events[n - 1]);
    }
  }

  /** Whatever the packets and the Lua handlers do: the limit holds, with one slot to spare at most. */
  lemma CarLimitHolds(maxCars: int, states: seq<CarState>, events: seq<CarEvent>, n: nat)
    requires CarRun(maxCars, states, events) && n < |states|
    ensures CarCount(states[n].vehicles, states[n].unicycleId) <= Max(0, maxCars)
    ensures |states[n].vehicles| <= Max(0, maxCars) + 1
    ensures DistinctIds(states[n].vehicles)
  {
    CarRunInv(maxCars, states, events, n);
  }
}
