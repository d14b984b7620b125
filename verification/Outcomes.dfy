/**
 What the handlers come to, said of each vehicle slot in the terms of the packets, not in those of the step function.
 */
module Outcomes {
  import opened Json
  import opened Vehicles
  import opened Wrappers

  /** Every vehicle but one is stored as before. */
  ghost predicate OthersKept(before: seq<Vehicle>, after: seq<Vehicle>, vid: int) {
    forall other | other != vid :: Lookup(after, other) == Lookup(before, other)
  }

  /** A spawned or edited document that says it is a unicycle. */
  predicate SaysUnicycle(fields: map<string, Json>) {
    "jbm" in fields && fields["jbm"] == JStr("unicycle")
  }

  /** Whether the handler does what an edit asks for: no plugin objects, and the unicycle stays one. */
  predicate GoesThrough(unicycleId: int, vid: int, config: Option<map<string, Json>>, veto: bool) {
    !veto && (vid == unicycleId ==> config.Some? && SaysUnicycle(config.value))
  }

  predicate Filled(slot: Option<Json>) {
    slot.Some? && slot.value != JNull
  }

  /** What an edit leaves in the list, said of the slots. */
  lemma EditOutcome(maxCars: int, s: CarState, vid: int, config: Option<map<string, Json>>, veto: bool)
    requires s.spawning.None? && vid >= 0 && DistinctIds(s.vehicles)
    ensures
      var after := CarNext(maxCars, s, EditCar(vid, config, veto)).vehicles;
      && OthersKept(s.vehicles, after, vid)
      && Lookup(after, vid) ==
           if !GoesThrough(s.unicycleId, vid, config, veto) then None
           else if config.Some? && Filled(Lookup(s.vehicles, vid)) then Some(JObj(config.value))
           else Lookup(s.vehicles, vid)
    ensures CarNext(maxCars, s, EditCar(vid, config, veto)).unicycleId ==
      if !GoesThrough(s.unicycleId, vid, config, veto) && s.unicycleId == vid then -1 else s.unicycleId
    ensures Broadcast(maxCars, s, EditCar(vid, config, veto))
      == [if GoesThrough(s.unicycleId, vid, config, veto) then Edit(vid, config) else Delete(vid)]
  {
    var after := CarNext(maxCars, s, EditCar(vid, config, veto)).vehicles;
    forall other ensures Lookup(after, other) ==
      if other != vid then Lookup(s.vehicles, other)
      else if !GoesThrough(s.unicycleId, vid, config, veto) then None
      else if config.Some? && Filled(Lookup(s.vehicles, vid)) then Some(JObj(config.value))
      else Lookup(s.vehicles, vid)
    {
      LookupDelete(s.vehicles, vid, other);
      if config.Some? { LookupSet(s.vehicles, vid, JObj(config.value), other); }
    }
  }

  /** The document of a vehicle with new paints: those sent, everything else as it was. */
  predicate HasNewPaints(before: Json, after: Json, paints: seq<Json>) {
    && before.JObj? && after.JObj? && after.fields.Keys == before.fields.Keys
    && "vcf" in before.fields && before.fields["vcf"].JObj? && after.fields["vcf"].JObj?
    && (forall name | name in before.fields && name != "vcf" :: after.fields[name] == before.fields[name])
    && var (vcf, vcf') := (before.fields["vcf"].fields, after.fields["vcf"].fields);
    && vcf'.Keys == vcf.Keys && "paints" in vcf && vcf'["paints"] == JArr(paints)
    && forall name | name in vcf && name != "paints" :: vcf'[name] == vcf[name]
  }

  predicate HasPaints(slot: Option<Json>) {
    && slot.Some? && slot.value.JObj?
    && "vcf" in slot.value.fields && slot.value.fields["vcf"].JObj?
    && "paints" in slot.value.fields["vcf"].fields && slot.value.fields["vcf"].fields["paints"].JArr?
  }

  lemma PaintOutcome(maxCars: int, s: CarState, vid: int, paints: Option<seq<Json>>)
    requires s.spawning.None? && vid >= 0
    ensures
      var after := CarNext(maxCars, s, PaintCar(vid, paints)).vehicles;
      && OthersKept(s.vehicles, after, vid)
      && (if paints.Some? && HasPaints(Lookup(s.vehicles, vid))
          then
            && Lookup(after, vid).Some?
            && HasNewPaints(Lookup(s.vehicles, vid).value, Lookup(after, vid).value, paints.value)
          else after == s.vehicles)
    ensures Broadcast(maxCars, s, PaintCar(vid, paints)) == [Paint(vid, paints)]
  {
    var after := CarNext(maxCars, s, PaintCar(vid, paints)).vehicles;
    if paints.Some? && HasPaints(Lookup(s.vehicles, vid)) {
      var painted := Repaint(Lookup(s.vehicles, vid).value, paints.value);
      forall other ensures Lookup(after, other) == if other == vid then Some(painted) else Lookup(s.vehicles, other) {
        LookupSet(s.vehicles, vid, painted, other);
      }
    }
  }

  /** What a spawn leaves, with the number of vehicles counted as they are listed. */
  lemma SpawnOutcome(maxCars: int, s: CarState, carId: int, doc: Option<Json>, veto: bool)
    requires s.spawning == Some(carId) && carId !in Ids(s.vehicles)
    ensures
      var unicycle := doc.Some? && doc.value.JObj? && SaysUnicycle(doc.value.fields);
      var exempt := exists i :: 0 <= i < |s.vehicles| && s.vehicles[i].id == s.unicycleId;
      var room := |s.vehicles| - (if exempt then 1 else 0) < maxCars;
      var accepted := !veto && doc.Some? && ((unicycle && s.unicycleId < 0) || room);
      var t := CarNext(maxCars, s, SpawnEnd(doc, veto));
      && OthersKept(s.vehicles, t.vehicles, carId)
      && Lookup(t.vehicles, carId) == (if accepted then doc else None)
      && t.unicycleId == (if unicycle && s.unicycleId < 0 then carId else s.unicycleId)
      && Broadcast(maxCars, s, SpawnEnd(doc, veto)) == if accepted then [Spawn(carId, doc.value)] else []
  {
    LookupIffId(s.vehicles, carId);
    if doc.Some? {
      forall other ensures Lookup(s.vehicles + [Vehicle(carId, doc.value)], other)
        == if other == carId then doc else Lookup(s.vehicles, other)
      {
        LookupAppend(s.vehicles, Vehicle(carId, doc.value), other);
      }
    }
  }

  lemma DeleteOutcome(maxCars: int, s: CarState, vid: int)
    requires s.spawning.None? && vid >= 0 && DistinctIds(s.vehicles)
    ensures
      var t := CarNext(maxCars, s, DeleteCar(vid));
      && OthersKept(s.vehicles, t.vehicles, vid) && Lookup(t.vehicles, vid) == None
      && t.unicycleId == (if s.unicycleId == vid then -1 else s.unicycleId)
      && Broadcast(maxCars, s, DeleteCar(vid)) == [Delete(vid)]
  {
    forall other ensures Lookup(DeleteFirst(s.vehicles, vid), other)
      == if other == vid then None else Lookup(s.vehicles, other)
    {
      LookupDelete(s.vehicles, vid, other);
    }
  }

  lemma RemovalOutcome(maxCars: int, s: CarState, vid: int)
    requires DistinctIds(s.vehicles)
    ensures
      var t := CarNext(maxCars, s, LuaRemove(vid));
      && OthersKept(s.vehicles, t.vehicles, vid) && t.unicycleId == s.unicycleId
      && Lookup(t.vehicles, vid) == (if Filled(Lookup(s.vehicles, vid)) then None else Lookup(s.vehicles, vid))
      && Broadcast(maxCars, s, LuaRemove(vid)) == if Filled(Lookup(s.vehicles, vid)) then [Delete(vid)] else []
  {
    forall other ensures Lookup(DeleteFirst(s.vehicles, vid), other)
      == if other == vid then None else Lookup(s.vehicles, other)
    {
      LookupDelete(s.vehicles, vid, other);
    }
  }
}
