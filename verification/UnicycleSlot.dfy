/**
 The unicycle slot exempts one vehicle from the car limit. Whether the cars themselves then stay within the limit
 depends on whether the vehicle in the slot is a unicycle.
 */
module UnicycleSlot {
  import opened Json
  import opened Vehicles
  import opened Wrappers

  function RealCars(vs: seq<Vehicle>): nat {
    if vs == [] then 0 else (if IsUnicycle(Some(vs[0].data)) then 0 else 1) + RealCars(vs[1..])
  }

  /** The two events that leave the slot pointing at an identifier no unicycle has. */
  predicate LeavesStaleSlot(s: CarState, e: CarEvent) {
    match e
    case SpawnEnd(doc, veto) => ReservesUnicycle(s, doc) && veto
    case LuaRemove(vid) => vid >= 0 && vid == s.unicycleId
    case _ => false
  }

  predicate SlotHoldsUnicycle(s: CarState) {
    s.unicycleId >= 0 ==> IsUnicycle(Lookup(s.vehicles, s.unicycleId))
  }

  /*******************************************************************************
   *  One step: exactly those two events make the slot stale
   *******************************************************************************/

  lemma SlotAfterSpawn(maxCars: int, s: CarState, doc: Option<Json>, veto: bool)
    requires CarInv(maxCars, s) && s.spawning.Some? && SlotHoldsUnicycle(s)
    ensures SlotHoldsUnicycle(CarNext(maxCars, s, SpawnEnd(doc, veto))) <==> !(ReservesUnicycle(s, doc) && veto)
  {
    var id, s' := s.spawning.value, CarNext(maxCars, s, SpawnEnd(doc, veto));
    LookupIffId(s.vehicles, id);
    if s'.vehicles != s.vehicles {
      LookupAppend(s.vehicles, Vehicle(id, doc.value), s'.unicycleId);
    }
  }

  lemma SlotStepIff(maxCars: int, s: CarState, e: CarEvent)
    requires CarInv(maxCars, s) && Enabled(s, e) && SlotHoldsUnicycle(s)
    ensures SlotHoldsUnicycle(CarNext(maxCars, s, e)) <==> !LeavesStaleSlot(s, e)
  {
    match e
    case SpawnBegin =>
    case SpawnEnd(doc, veto) =>
      SlotAfterSpawn(maxCars, s, doc, veto);
    case EditCar(vid, config, veto) =>
      if EditAllowed(s, vid, config, veto) {
        ApplyOpIsEffect(s.vehicles, Edit(vid, config), s.unicycleId);
      } else {
        LookupDelete(s.vehicles, vid, s.unicycleId);
      }
    case DeleteCar(vid) =>
      LookupDelete(s.vehicles, vid, s.unicycleId);
    case PaintCar(vid, paints) =>
      ApplyOpIsEffect(s.vehicles, Paint(vid, paints), s.unicycleId);
    case LuaRemove(vid) =>
      LookupDelete(s.vehicles, vid, s.unicycleId);
  }

  lemma {:induction false} RealCarsBound(vs: seq<Vehicle>, vid: int)
    ensures RealCars(vs) <= |vs|
    ensures IsUnicycle(Lookup(vs, vid)) ==> RealCars(vs) < |vs|
  {
    if vs != [] {
      RealCarsBound(vs[1..], vid);
    }
  }

  /** With a unicycle in the slot the limit holds of the cars themselves. */
  lemma HeldSlotLimits(maxCars: int, s: CarState)
    requires CarInv(maxCars, s) && SlotHoldsUnicycle(s)
    ensures RealCars(s.vehicles) <= Max(0, maxCars)
  {
    RealCarsBound(s.vehicles, s.unicycleId);
    LookupIffId(s.vehicles, s.unicycleId);
  }

  /** With no stale slot the limit holds of the cars themselves, the unicycle left aside. */
  lemma {:induction false} RealCarLimit(maxCars: int, states: seq<CarState>, events: seq<CarEvent>, n: nat)
    requires CarRun(maxCars, states, events) && n < |states|
    requires forall i | 0 <= i < n :: !LeavesStaleSlot(states[i], events[i])
    ensures SlotHoldsUnicycle(states[n])
    ensures RealCars(states[n].vehicles) <= Max(0, maxCars)
  {
    CarRunInv(maxCars, states, events, n);
    if n > 0 {
      RealCarLimit(maxCars, states, events, n - 1);
      CarRunInv(maxCars, states, events, n - 1);
      SlotStepIff(maxCars, states[n - 1], events[n - 1]);
    }
    HeldSlotLimits(maxCars, states[n]);
  }

  /*******************************************************************************
   *  What else every run keeps of the slot
   *******************************************************************************/

  /**
   The slot's identifier is no larger than the limit. A limit of zero lets only the unicycle in, so that the slot
   never points at anything else.
   */
  ghost predicate SlotInv(maxCars: int, s: CarState) {
    && CarInv(maxCars, s)
    && -1 <= s.unicycleId <= Max(0, maxCars)
    && (s.unicycleId < 0 && s.spawning.Some? ==> s.spawning.value <= Max(0, maxCars))
    && (maxCars <= 0 && Lookup(s.vehicles, s.unicycleId).Some? ==> IsUnicycle(Lookup(s.vehicles, s.unicycleId)))
  }

  lemma SpawnKeepsSlotInv(maxCars: int, s: CarState, doc: Option<Json>, veto: bool)
    requires SlotInv(maxCars, s) && s.spawning.Some?
    ensures SlotInv(maxCars, CarNext(maxCars, s, SpawnEnd(doc, veto)))
  {
    var id, s' := s.spawning.value, CarNext(maxCars, s, SpawnEnd(doc, veto));
    CarStepPreserves(maxCars, s, SpawnEnd(doc, veto));
    LookupIffId(s.vehicles, id);
    LookupIffId(s.vehicles, s'.unicycleId);
    if s'.vehicles != s.vehicles {
      LookupAppend(s.vehicles, Vehicle(id, doc.value), s'.unicycleId);
    }
  }

  lemma SlotInvStep(maxCars: int, s: CarState, e: CarEvent)
    requires SlotInv(maxCars, s) && Enabled(s, e)
    ensures SlotInv(maxCars, CarNext(maxCars, s, e))
  {
    CarStepPreserves(maxCars, s, e);
    match e
    case SpawnBegin =>
      IdsBound(s.vehicles);
      OpenIdBound(Ids(s.vehicles), LeastFree(Ids(s.vehicles)));
    case SpawnEnd(doc, veto) =>
      SpawnKeepsSlotInv(maxCars, s, doc, veto);
    case EditCar(vid, config, veto) =>
      if EditAllowed(s, vid, config, veto) {
        ApplyOpIsEffect(s.vehicles, Edit(vid, config), s.unicycleId);
      } else {
        LookupDelete(s.vehicles, vid, s.unicycleId);
        NoNegative(maxCars, CarNext(maxCars, s, e));
      }
    case DeleteCar(vid) =>
      LookupDelete(s.vehicles, vid, s.unicycleId);
      NoNegative(maxCars, CarNext(maxCars, s, e));
    case PaintCar(vid, paints) =>
      ApplyOpIsEffect(s.vehicles, Paint(vid, paints), s.unicycleId);
    case LuaRemove(vid) =>
      LookupDelete(s.vehicles, vid, s.unicycleId);
  }

  lemma NoNegative(maxCars: int, s: CarState)
    requires CarInv(maxCars, s)
    ensures Lookup(s.vehicles, -1).None?
  {
    LookupIffId(s.vehicles, -1);
  }

  lemma {:induction false} SlotRunInv(maxCars: int, states: seq<CarState>, events: seq<CarEvent>, n: nat)
    requires CarRun(maxCars, states, events) && n < |states|
    ensures SlotInv(maxCars, states[n])
  {
    if n > 0 {
      SlotRunInv(maxCars, states, events, n - 1);
      SlotInvStep(maxCars, states[n - 1], events[n - 1]);
    }
  }

  lemma NoRealCars(maxCars: int, s: CarState)
    requires SlotInv(maxCars, s) && maxCars <= 0
    ensures RealCars(s.vehicles) == 0
  {
    if s.vehicles != [] {
      LookupIffId(s.vehicles, s.unicycleId);
      var v := s.vehicles[0];
      assert s.vehicles == [v];
      assert Ids([v]) == {v.id};
    }
  }

  /*******************************************************************************
   *  Continuations that leave no further stale slot
   *******************************************************************************/

  /** The events lead from one state to the other, and none of them makes the slot stale. */
  ghost predicate Leads(maxCars: int, s: CarState, events: seq<CarEvent>, t: CarState)
    decreases |events|
  {
    if events == [] then s == t
    else
      && Enabled(s, events[0]) && !LeavesStaleSlot(s, events[0])
      && Leads(maxCars, CarNext(maxCars, s, events[0]), events[1..], t)
  }

  lemma {:induction false} LeadsOn(
    maxCars: int, s: CarState, a: seq<CarEvent>, t: CarState, b: seq<CarEvent>, u: CarState)
    requires Leads(maxCars, s, a, t) && Leads(maxCars, t, b, u)
    ensures Leads(maxCars, s, a + b, u)
    decreases |a|
  {
    if a == [] {
      assert a + b == b;
    } else {
      assert (a + b)[1..] == a[1..] + b;
      LeadsOn(maxCars, CarNext(maxCars, s, a[0]), a[1..], t, b, u);
    }
  }

  lemma {:induction false} LeadsKeeps(maxCars: int, s: CarState, events: seq<CarEvent>, t: CarState)
    requires Leads(maxCars, s, events, t) && SlotInv(maxCars, s)
    ensures SlotInv(maxCars, t)
    ensures SlotHoldsUnicycle(s) ==> SlotHoldsUnicycle(t)
    decreases |events|
  {
    if events != [] {
      SlotInvStep(maxCars, s, events[0]);
      if SlotHoldsUnicycle(s) {
        SlotStepIff(maxCars, s, events[0]);
      }
      LeadsKeeps(maxCars, CarNext(maxCars, s, events[0]), events[1..], t);
    }
  }

  /** Some such continuation has more real cars than the limit. */
  ghost predicate CanExceed(maxCars: int, s: CarState) {
    exists events, t :: Leads(maxCars, s, events, t) && RealCars(t.vehicles) > Max(0, maxCars)
  }

  /*******************************************************************************
   *  With a stale slot: how to exceed the limit
   *******************************************************************************/

  const CAR_DOC := JObj(map["jbm" := JStr("etk800")])

  predicate AllReal(vs: seq<Vehicle>) {
    forall v | v in vs :: !IsUnicycle(Some(v.data))
  }

  lemma {:induction false} AllRealCount(vs: seq<Vehicle>)
    requires AllReal(vs)
    ensures RealCars(vs) == |vs|
  {
    if vs != [] {
      AllRealCount(vs[1..]);
    }
  }

  /** An ordinary spawn with no interference. */
  lemma PlainSpawn(maxCars: int, s: CarState, t: CarState)
    requires s.spawning.None? && CarCount(s.vehicles, s.unicycleId) < maxCars
    requires t == s.(vehicles := s.vehicles + [Vehicle(LeastFree(Ids(s.vehicles)), CAR_DOC)])
    ensures Leads(maxCars, s, [SpawnBegin, SpawnEnd(Some(CAR_DOC), false)], t)
  {
    var events := [SpawnBegin, SpawnEnd(Some(CAR_DOC), false)];
    var begun := CarNext(maxCars, s, SpawnBegin);
    assert events[1..] == [SpawnEnd(Some(CAR_DOC), false)];
    assert CarNext(maxCars, begun, SpawnEnd(Some(CAR_DOC), false)) == t;
    assert events[1..][1..] == [];
  }

  /** With a real car in the slot, cars are let in until there is one too many. */
  lemma {:induction false} FillUp(maxCars: int, s: CarState)
    requires SlotInv(maxCars, s) && s.spawning.None? && AllReal(s.vehicles)
    requires s.unicycleId in Ids(s.vehicles) && maxCars >= 1
    ensures CanExceed(maxCars, s)
    decreases maxCars + 1 - |s.vehicles|
  {
    if |s.vehicles| > maxCars {
      AllRealCount(s.vehicles);
      assert Leads(maxCars, s, [], s);
    } else {
      var spawn := [SpawnBegin, SpawnEnd(Some(CAR_DOC), false)];
      var v := Vehicle(LeastFree(Ids(s.vehicles)), CAR_DOC);
      var t := s.(vehicles := s.vehicles + [v]);
      PlainSpawn(maxCars, s, t);
      LeadsKeeps(maxCars, s, spawn, t);
      AppendKeepsDistinct(s.vehicles, v);
      FillUp(maxCars, t);
      ExceedsVia(maxCars, s, spawn, t);
    }
  }

  lemma ExceedsVia(maxCars: int, s: CarState, events: seq<CarEvent>, t: CarState)
    requires Leads(maxCars, s, events, t) && CanExceed(maxCars, t)
    ensures CanExceed(maxCars, s)
  {
    var more, u :| Leads(maxCars, t, more, u) && RealCars(u.vehicles) > Max(0, maxCars);
    LeadsOn(maxCars, s, events, t, more, u);
  }

  /** The list holds such cars with the identifiers below n, and no others. */
  ghost predicate Consecutive(vs: seq<Vehicle>, n: nat) {
    && |vs| == n
    && (forall v | v in vs :: v.data == CAR_DOC)
    && forall k :: k in Ids(vs) <==> 0 <= k < n
  }

  /** With the slot's identifier free, cars are spawned until it is the next one to be given out. */
  lemma {:induction false} FillBelow(maxCars: int, s: CarState, n: nat)
    requires SlotInv(maxCars, s) && s.spawning.None? && n <= s.unicycleId && maxCars >= 1
    requires Consecutive(s.vehicles, n)
    ensures CanExceed(maxCars, s)
    decreases s.unicycleId - n
  {
    OpenIdUnique(Ids(s.vehicles), LeastFree(Ids(s.vehicles)), n);
    if n == maxCars {
      TakeSlotLate(maxCars, s);
    } else {
      var spawn := [SpawnBegin, SpawnEnd(Some(CAR_DOC), false)];
      var t := s.(vehicles := s.vehicles + [Vehicle(n, CAR_DOC)]);
      PlainSpawn(maxCars, s, t);
      LeadsKeeps(maxCars, s, spawn, t);
      AppendKeepsDistinct(s.vehicles, Vehicle(n, CAR_DOC));
      if n == s.unicycleId {
        FillUp(maxCars, t);
      } else {
        FillBelow(maxCars, t, n + 1);
      }
      ExceedsVia(maxCars, s, spawn, t);
    }
  }

  /**
   The slot's identifier is the limit itself, and the list is full. A spawn has the identifier reserved and then
   finds room, because Lua has removed another car meanwhile.
   */
  lemma TakeSlotLate(maxCars: int, s: CarState)
    requires SlotInv(maxCars, s) && s.spawning.None? && s.unicycleId == maxCars >= 1
    requires Consecutive(s.vehicles, maxCars)
    ensures CanExceed(maxCars, s)
  {
    OpenIdUnique(Ids(s.vehicles), LeastFree(Ids(s.vehicles)), maxCars);
    var events := [SpawnBegin, LuaRemove(0), SpawnEnd(Some(CAR_DOC), false)];
    var begun := s.(spawning := Some(maxCars));
    FirstIsCar(s.vehicles, 0);
    DeleteKeepsDistinct(s.vehicles, 0);
    DeleteKeepsData(s.vehicles, 0);
    var rest := DeleteFirst(s.vehicles, 0);
    var removed := begun.(vehicles := rest);
    var t := CarState(rest + [Vehicle(maxCars, CAR_DOC)], maxCars, None);
    assert CarNext(maxCars, begun, LuaRemove(0)) == removed;
    assert CarNext(maxCars, removed, SpawnEnd(Some(CAR_DOC), false)) == t;
    LeadsOne(maxCars, removed, SpawnEnd(Some(CAR_DOC), false));
    LeadsFirst(maxCars, begun, LuaRemove(0), [SpawnEnd(Some(CAR_DOC), false)], t);
    LeadsFirst(maxCars, s, SpawnBegin, [LuaRemove(0), SpawnEnd(Some(CAR_DOC), false)], t);
    assert [SpawnBegin] + [LuaRemove(0), SpawnEnd(Some(CAR_DOC), false)] == events;
    assert [LuaRemove(0)] + [SpawnEnd(Some(CAR_DOC), false)] == [LuaRemove(0), SpawnEnd(Some(CAR_DOC), false)];
    LeadsKeeps(maxCars, s, events, t);
    AppendKeepsDistinct(rest, Vehicle(maxCars, CAR_DOC));
    FillUp(maxCars, t);
    ExceedsVia(maxCars, s, events, t);
  }

  lemma LeadsOne(maxCars: int, s: CarState, e: CarEvent)
    requires Enabled(s, e) && !LeavesStaleSlot(s, e)
    ensures Leads(maxCars, s, [e], CarNext(maxCars, s, e))
  {
    assert [e][1..] == [];
  }

  lemma LeadsFirst(maxCars: int, s: CarState, e: CarEvent, more: seq<CarEvent>, t: CarState)
    requires Enabled(s, e) && !LeavesStaleSlot(s, e) && Leads(maxCars, CarNext(maxCars, s, e), more, t)
    ensures Leads(maxCars, s, [e] + more, t)
  {
    assert ([e] + more)[1..] == more;
  }

  lemma {:induction false} FirstIsCar(vs: seq<Vehicle>, vid: int)
    requires (forall v | v in vs :: v.data == CAR_DOC) && vid in Ids(vs)
    ensures Lookup(vs, vid) == Some(CAR_DOC)
  {
    IdsOfCons(vs);
    if vs[0].id != vid {
      FirstIsCar(vs[1..], vid);
    }
  }

  lemma {:induction false} DeleteKeepsData(vs: seq<Vehicle>, vid: int)
    ensures forall v | v in DeleteFirst(vs, vid) :: v in vs
  {
    if vs != [] {
      DeleteKeepsData(vs[1..], vid);
    }
  }

  /** Whatever is in the list: once the others are deleted, the stale slot is used. */
  lemma {:induction false} StaleExceeds(maxCars: int, s: CarState)
    requires SlotInv(maxCars, s) && s.spawning.None? && !SlotHoldsUnicycle(s) && maxCars >= 1
    ensures CanExceed(maxCars, s)
    decreases |s.vehicles|
  {
    if s.vehicles == [] {
      FillBelow(maxCars, s, 0);
    } else if |s.vehicles| == 1 && s.vehicles[0].id == s.unicycleId {
      assert s.vehicles[0].id in Ids(s.vehicles);
      FillUp(maxCars, s);
    } else {
      var v := OtherThan(s.vehicles, s.unicycleId);
      var e := DeleteCar(v.id);
      assert v.id in Ids(s.vehicles);
      SlotInvStep(maxCars, s, e);
      LookupDelete(s.vehicles, v.id, s.unicycleId);
      DeleteKeepsDistinct(s.vehicles, v.id);
      LeadsOne(maxCars, s, e);
      StaleExceeds(maxCars, CarNext(maxCars, s, e));
      ExceedsVia(maxCars, s, [e], CarNext(maxCars, s, e));
    }
  }

  lemma OtherThan(vs: seq<Vehicle>, vid: int) returns (v: Vehicle)
    requires DistinctIds(vs) && vs != [] && (|vs| == 1 ==> vs[0].id != vid)
    ensures v in vs && v.id != vid
  {
    v := if vs[0].id != vid then vs[0] else vs[1];
  }

  lemma ExceedIff(maxCars: int, s: CarState)
    requires SlotInv(maxCars, s)
    ensures CanExceed(maxCars, s) <==> maxCars >= 1 && !SlotHoldsUnicycle(s)
  {
    if CanExceed(maxCars, s) {
      var events, t :| Leads(maxCars, s, events, t) && RealCars(t.vehicles) > Max(0, maxCars);
      LeadsKeeps(maxCars, s, events, t);
      if maxCars < 1 {
        NoRealCars(maxCars, t);
      }
      if SlotHoldsUnicycle(t) {
        HeldSlotLimits(maxCars, t);
      }
    }
    if maxCars >= 1 && !SlotHoldsUnicycle(s) {
      var e := SpawnEnd(None, false);
      if s.spawning.Some? {
        SlotInvStep(maxCars, s, e);
        LeadsOne(maxCars, s, e);
        StaleExceeds(maxCars, CarNext(maxCars, s, e));
        ExceedsVia(maxCars, s, [e], CarNext(maxCars, s, e));
      } else {
        StaleExceeds(maxCars, s);
      }
    }
  }

  /**
   The exact condition: from a state of any run the real cars can come to exceed the limit, with no further event
   that makes the slot stale, just when it is stale already and the limit lets any car in at all.
   */
  lemma RealCarLimitIff(maxCars: int, states: seq<CarState>, events: seq<CarEvent>, n: nat)
    requires CarRun(maxCars, states, events) && n < |states|
    ensures CanExceed(maxCars, states[n]) <==> maxCars >= 1 && !SlotHoldsUnicycle(states[n])
  {
    SlotRunInv(maxCars, states, events, n);
    ExceedIff(maxCars, states[n]);
  }

  /** And the two events are exactly the ones that bring this about. */
  lemma StaleStepIff(maxCars: int, states: seq<CarState>, events: seq<CarEvent>, n: nat, e: CarEvent)
    requires CarRun(maxCars, states, events) && n < |states| && Enabled(states[n], e) && SlotHoldsUnicycle(states[n])
    ensures CanExceed(maxCars, CarNext(maxCars, states[n], e)) <==> maxCars >= 1 && LeavesStaleSlot(states[n], e)
  {
    SlotRunInv(maxCars, states, events, n);
    SlotInvStep(maxCars, states[n], e);
    ExceedIff(maxCars, CarNext(maxCars, states[n], e));
    SlotStepIff(maxCars, states[n], e);
  }

  const UNICYCLE_DOC := JObj(map["jbm" := JStr("unicycle")])

  /** A run of a client's first two events; `veto` is Lua's answer. */
  lemma FirstUnicycle(maxCars: int, veto: bool) returns (states: seq<CarState>, events: seq<CarEvent>)
    ensures CarRun(maxCars, states, events) && |events| == 2
    ensures states[2] == CarState(if veto then [] else [Vehicle(0, UNICYCLE_DOC)], 0, None)
  {
    OpenIdUnique({}, LeastFree({}), 0);
    assert Ids([]) == {};
    events := [SpawnBegin, SpawnEnd(Some(UNICYCLE_DOC), veto)];
    states := [
      NEW_CLIENT, CarState([], -1, Some(0)), CarState(if veto then [] else [Vehicle(0, UNICYCLE_DOC)], 0, None)];
  }

  /** A Lua veto of a unicycle spawn is enough: from then on one real car more than the limit fits. */
  lemma VetoRaisesLimit(maxCars: int)
    ensures CanExceed(maxCars, CarState([], 0, None)) <==> maxCars >= 1
  {
    var states, events := FirstUnicycle(maxCars, true);
    RealCarLimitIff(maxCars, states, events, 2);
  }

  /** So is the removal of a unicycle by Lua. */
  lemma RemovalRaisesLimit(maxCars: int)
    ensures
      var s := CarState([Vehicle(0, UNICYCLE_DOC)], 0, None);
      && CarNext(maxCars, s, LuaRemove(0)) == CarState([], 0, None)
      && !CanExceed(maxCars, s)
      && (CanExceed(maxCars, CarNext(maxCars, s, LuaRemove(0))) <==> maxCars >= 1)
  {
    var states, events := FirstUnicycle(maxCars, false);
    RealCarLimitIff(maxCars, states, events, 2);
    StaleStepIff(maxCars, states, events, 2, LuaRemove(0));
  }
}
