/**
 Freezing as it runs: on a Lua heap, where tables may be shared or contain themselves, with a loop over each
 table's entries. Depth alone makes it end.
 */
module FreezeHeap {
  import opened Freeze
  import opened LuaValues
  import opened Wrappers

  datatype Value =
    | VNil
    | VBool(b: bool)
    | VNum(r: real)
    | VStr(s: string)
    | VRef(address: nat)
    | VOpaque

  type Heap = map<nat, map<LuaKey, Value>>

  predicate Allocated(h: Heap, v: Value) {
    v.VRef? ==> v.address in h
  }

  /** Every reference held in a table leads to a table. */
  ghost predicate Closed(h: Heap) {
    forall a, k | a in h && k in h[a] :: Allocated(h, h[a][k])
  }

  ghost function FreezeValue(h: Heap, v: Value, depth: nat): Option<Frozen>
    requires Closed(h) && Allocated(h, v)
    decreases MAX_DEPTH + 1 - depth
  {
    if depth > MAX_DEPTH then None else
    match v
    case VNil => Some(FNil)
    case VBool(b) => Some(FBool(b))
    case VNum(r) => Some(FreezeNumber(r))
    case VStr(s) => Some(FStr(s))
    case VOpaque => None
    case VRef(a) =>
      var m := h[a];
      if forall k | k in m && Followed(k) :: FreezeValue(h, m[k], depth + 1).Some?
      then Some(Assemble(m.Keys, map k | k in m && Followed(k) :: FreezeValue(h, m[k], depth + 1).value))
      else None
  }

  /** The frozen values of the entries that are followed. */
  ghost function FrozenSlots(h: Heap, m: map<LuaKey, Value>, depth: nat): map<LuaKey, Frozen>
    requires Closed(h) && forall k | k in m :: Allocated(h, m[k])
    requires forall k | k in m && Followed(k) :: FreezeValue(h, m[k], depth).Some?
  {
    map k | k in m && Followed(k) :: FreezeValue(h, m[k], depth).value
  }

  /*******************************************************************************
   *  The recursive routine with its loop
   *******************************************************************************/

  method FreezeRecursive(h: Heap, v: Value, depth: nat) returns (r: Option<Frozen>)
    requires Closed(h) && Allocated(h, v)
    ensures r == FreezeValue(h, v, depth)
    decreases MAX_DEPTH + 1 - depth, 1
  {
    if depth > MAX_DEPTH {
      return None;
    }
    match v
    case VNil => return Some(FNil);
    case VBool(b) => return Some(FBool(b));
    case VNum(n) => return Some(FreezeNumber(n));
    case VStr(s) => return Some(FStr(s));
    case VOpaque => return None;
    case VRef(a) => r := FreezeTable(h, a, depth);
  }

  /** `byName` and `byIndex` are the routine's two accumulators, filled in whatever order Lua iterates. */
  method FreezeTable(h: Heap, a: nat, depth: nat) returns (r: Option<Frozen>)
    requires Closed(h) && a in h && depth <= MAX_DEPTH
    ensures r == FreezeValue(h, VRef(a), depth)
    decreases MAX_DEPTH + 1 - depth, 0
  {
    var m := h[a];
    var byName: map<string, Frozen> := map[];
    var byIndex: map<nat, Frozen> := map[];
    var hasOther := false;
    var maxIndex: nat := 0;
    ghost var frozen: map<LuaKey, Frozen> := map[];
    var rest := m.Keys;
    while rest != {}
      invariant rest <= m.Keys
      invariant Scanned(h, m, rest, depth + 1, frozen, byName, byIndex, maxIndex, hasOther)
      decreases rest
    {
      var k :| k in rest;
      if Followed(k) {
        var value := FreezeRecursive(h, m[k], depth + 1);
        if value.None? {
          EntryFails(h, a, k, depth);
          return None;
        }
        byName, byIndex, maxIndex := AddEntry(
          h, m, rest, depth + 1, frozen, byName, byIndex, maxIndex, hasOther, k, value.value);
        frozen := frozen[k := value.value];
      } else {
        ScanSkipped(h, m, rest, depth + 1, frozen, byName, byIndex, maxIndex, hasOther, k);
        hasOther := true;
      }
      rest := rest - {k};
    }
    var table := AssembleTable(h, a, depth, frozen, byName, byIndex, maxIndex, hasOther);
    return Some(table);
  }

  /** One followed entry goes to the accumulator of its kind of key. */
  method AddEntry(
    ghost h: Heap, ghost m: map<LuaKey, Value>, ghost rest: set<LuaKey>, ghost depth: nat,
    ghost frozen: map<LuaKey, Frozen>,
    byName: map<string, Frozen>, byIndex: map<nat, Frozen>, maxIndex: nat, ghost hasOther: bool, k: LuaKey, f: Frozen)
    returns (byName': map<string, Frozen>, byIndex': map<nat, Frozen>, maxIndex': nat)
    requires Closed(h) && forall k | k in m :: Allocated(h, m[k])
    requires Scanned(h, m, rest, depth, frozen, byName, byIndex, maxIndex, hasOther)
    requires k in rest && k in m && Followed(k) && FreezeValue(h, m[k], depth) == Some(f)
    ensures Scanned(h, m, rest - {k}, depth, frozen[k := f], byName', byIndex', maxIndex', hasOther)
  {
    ScanFollowed(h, m, rest, depth, frozen, byName, byIndex, maxIndex, hasOther, k, f);
    byName', byIndex', maxIndex' := byName, byIndex, maxIndex;
    if k.KStr? {
      byName' := byName[k.s := f];
    } else {
      maxIndex' := if k.i > maxIndex then k.i else maxIndex;
      byIndex' := byIndex[k.i := f];
    }
  }

  /** What the routine makes of its accumulators: an array if there were indexes only. */
  method AssembleTable(
    ghost h: Heap, ghost a: nat, ghost depth: nat, ghost frozen: map<LuaKey, Frozen>,
    byName: map<string, Frozen>, byIndex: map<nat, Frozen>, maxIndex: nat, hasOther: bool)
    returns (table: Frozen)
    requires Closed(h) && a in h && depth <= MAX_DEPTH
    requires Scanned(h, h[a], {}, depth + 1, frozen, byName, byIndex, maxIndex, hasOther)
    ensures FreezeValue(h, VRef(a), depth) == Some(table)
  {
    ScanDone(h, a, depth, frozen, byName, byIndex, maxIndex, hasOther);
    if byIndex != map[] && byName == map[] && !hasOther {
      var elems := FillArray(byIndex, maxIndex);
      AssembleArray(h[a].Keys, frozen, byName, byIndex, maxIndex, elems);
      return FArray(elems);
    }
    AssembleObject(h[a].Keys, frozen, byName, byIndex, maxIndex);
    return FObject(byName);
  }

  /** What the loop has gathered once all entries but `rest` have been passed. */
  ghost predicate Scanned(
    h: Heap, m: map<LuaKey, Value>, rest: set<LuaKey>, depth: nat,
    frozen: map<LuaKey, Frozen>, byName: map<string, Frozen>, byIndex: map<nat, Frozen>, maxIndex: nat, hasOther: bool)
    requires Closed(h) && forall k | k in m :: Allocated(h, m[k])
  {
    && FrozenSoFar(h, m, rest, depth, frozen)
    && Sorted(frozen, byName, byIndex, maxIndex)
    && (hasOther <==> !forall k | k in m && k !in rest :: Followed(k))
  }

  lemma ScanFollowed(
    h: Heap, m: map<LuaKey, Value>, rest: set<LuaKey>, depth: nat,
    frozen: map<LuaKey, Frozen>, byName: map<string, Frozen>, byIndex: map<nat, Frozen>, maxIndex: nat, hasOther: bool,
    k: LuaKey, f: Frozen)
    requires Closed(h) && forall k | k in m :: Allocated(h, m[k])
    requires Scanned(h, m, rest, depth, frozen, byName, byIndex, maxIndex, hasOther)
    requires k in rest && k in m && Followed(k) && FreezeValue(h, m[k], depth) == Some(f)
    ensures k.KStr? ==> Scanned(h, m, rest - {k}, depth, frozen[k := f], byName[k.s := f], byIndex, maxIndex, hasOther)
    ensures k.KInt? ==>
      Scanned(h, m, rest - {k}, depth, frozen[k := f], byName, byIndex[k.i := f],
              if k.i > maxIndex then k.i else maxIndex, hasOther)
  {
    FrozenOneMore(h, m, rest, depth, frozen, k, f);
    SortedOneMore(frozen, byName, byIndex, maxIndex, k, f);
    assert forall other | other in m :: other !in rest - {k} <==> other !in rest || other == k;
  }

  lemma ScanSkipped(
    h: Heap, m: map<LuaKey, Value>, rest: set<LuaKey>, depth: nat,
    frozen: map<LuaKey, Frozen>, byName: map<string, Frozen>, byIndex: map<nat, Frozen>, maxIndex: nat, hasOther: bool,
    k: LuaKey)
    requires Closed(h) && forall k | k in m :: Allocated(h, m[k])
    requires Scanned(h, m, rest, depth, frozen, byName, byIndex, maxIndex, hasOther)
    requires k in rest && k in m && !Followed(k)
    ensures Scanned(h, m, rest - {k}, depth, frozen, byName, byIndex, maxIndex, true)
  {
    FrozenSkip(h, m, rest, depth, frozen, k);
  }

  lemma ScanDone(
    h: Heap, a: nat, depth: nat,
    frozen: map<LuaKey, Frozen>, byName: map<string, Frozen>, byIndex: map<nat, Frozen>, maxIndex: nat, hasOther: bool)
    requires Closed(h) && a in h && depth <= MAX_DEPTH
    requires Scanned(h, h[a], {}, depth + 1, frozen, byName, byIndex, maxIndex, hasOther)
    ensures FreezeValue(h, VRef(a), depth) == Some(Assemble(h[a].Keys, frozen))
    ensures Sorted(frozen, byName, byIndex, maxIndex)
    ensures forall k :: k in frozen <==> k in h[a] && Followed(k)
    ensures byIndex != map[] && byName == map[] && !hasOther <==> IsSequence(h[a].Keys)
  {
    FrozenAll(h, a, depth, frozen);
    SortedKeys(h[a].Keys, frozen, byName, byIndex, maxIndex);
  }

  /** The entries passed so far that are followed, with their frozen values. */
  ghost predicate FrozenSoFar(
    h: Heap, m: map<LuaKey, Value>, rest: set<LuaKey>, depth: nat, frozen: map<LuaKey, Frozen>)
    requires Closed(h) && forall k | k in m :: Allocated(h, m[k])
  {
    && (forall k :: k in frozen <==> k in m && k !in rest && Followed(k))
    && (forall k | k in frozen :: FreezeValue(h, m[k], depth) == Some(frozen[k]))
  }

  lemma FrozenOneMore(
    h: Heap, m: map<LuaKey, Value>, rest: set<LuaKey>, depth: nat, frozen: map<LuaKey, Frozen>, k: LuaKey, f: Frozen)
    requires Closed(h) && forall k | k in m :: Allocated(h, m[k])
    requires FrozenSoFar(h, m, rest, depth, frozen) && k in rest && k in m && Followed(k)
    requires FreezeValue(h, m[k], depth) == Some(f)
    ensures FrozenSoFar(h, m, rest - {k}, depth, frozen[k := f])
  {
  }

  lemma FrozenSkip(
    h: Heap, m: map<LuaKey, Value>, rest: set<LuaKey>, depth: nat, frozen: map<LuaKey, Frozen>, k: LuaKey)
    requires Closed(h) && forall k | k in m :: Allocated(h, m[k])
    requires FrozenSoFar(h, m, rest, depth, frozen) && !Followed(k)
    ensures FrozenSoFar(h, m, rest - {k}, depth, frozen)
  {
  }

  lemma FrozenAll(h: Heap, a: nat, depth: nat, frozen: map<LuaKey, Frozen>)
    requires Closed(h) && a in h && depth <= MAX_DEPTH
    requires FrozenSoFar(h, h[a], {}, depth + 1, frozen)
    ensures FreezeValue(h, VRef(a), depth) == Some(Assemble(h[a].Keys, frozen))
    ensures forall k :: k in frozen <==> k in h[a] && Followed(k)
  {
    var m := h[a];
    assert forall k | k in m && Followed(k) :: FreezeValue(h, m[k], depth + 1).Some?;
    assert frozen == FrozenSlots(h, m, depth + 1);
  }

  /** The accumulators split the frozen entries into the string keys and the indexes. */
  ghost predicate Sorted(
    frozen: map<LuaKey, Frozen>, byName: map<string, Frozen>, byIndex: map<nat, Frozen>, maxIndex: nat)
  {
    && (forall k | k in frozen :: Followed(k))
    && (forall s :: s in byName <==> KStr(s) in frozen)
    && (forall s | s in byName :: byName[s] == frozen[KStr(s)])
    && (forall i: nat :: i in byIndex <==> KInt(i) in frozen)
    && (forall i | i in byIndex :: byIndex[i] == frozen[KInt(i)] && 1 <= i <= maxIndex)
    && (maxIndex == 0 || maxIndex in byIndex)
  }

  lemma SortedOneMore(
    frozen: map<LuaKey, Frozen>, byName: map<string, Frozen>, byIndex: map<nat, Frozen>, maxIndex: nat,
    k: LuaKey, f: Frozen)
    requires Sorted(frozen, byName, byIndex, maxIndex) && Followed(k)
    ensures k.KStr? ==> Sorted(frozen[k := f], byName[k.s := f], byIndex, maxIndex)
    ensures k.KInt? ==>
      Sorted(frozen[k := f], byName, byIndex[k.i := f], if k.i > maxIndex then k.i else maxIndex)
  {
  }

  lemma SortedKeys(
    keys: set<LuaKey>, frozen: map<LuaKey, Frozen>,
    byName: map<string, Frozen>, byIndex: map<nat, Frozen>, maxIndex: nat)
    requires Sorted(frozen, byName, byIndex, maxIndex)
    requires forall k :: k in frozen <==> k in keys && Followed(k)
    ensures byIndex != map[] && byName == map[] && (forall k | k in keys :: Followed(k)) <==> IsSequence(keys)
  {
    if byIndex != map[] {
      var i :| i in byIndex;
      assert KInt(i) in keys;
    }
    if IsSequence(keys) {
      var k :| k in keys;
      assert IsIndex(k) && k == KInt(k.i) && k in frozen;
      assert k.i in byIndex;
      assert forall s :: s !in byName;
    }
    if byIndex != map[] && byName == map[] && (forall k | k in keys :: Followed(k)) {
      assert forall s :: KStr(s) !in frozen;
      assert forall k | k in keys :: k in frozen && IsIndex(k);
    }
  }

  /** Starts from an array of empty values and puts each entry in its place. */
  method FillArray(byIndex: map<nat, Frozen>, size: nat) returns (elems: seq<Frozen>)
    ensures |elems| == size
    ensures forall i | 0 <= i < size :: elems[i] == if i + 1 in byIndex then byIndex[i + 1] else FNil
  {
    elems := seq(size, _ => FNil);
    var rest := byIndex.Keys;
    while rest != {}
      invariant rest <= byIndex.Keys && |elems| == size
      invariant forall i | 0 <= i < size ::
        elems[i] == if i + 1 in byIndex && i + 1 !in rest then byIndex[i + 1] else FNil
      decreases rest
    {
      var index :| index in rest;
      rest := rest - {index};
      if 0 < index <= size {
        elems := elems[index - 1 := byIndex[index]];
      }
    }
  }

  lemma AssembleArray(
    keys: set<LuaKey>, frozen: map<LuaKey, Frozen>, byName: map<string, Frozen>, byIndex: map<nat, Frozen>,
    maxIndex: nat, elems: seq<Frozen>)
    requires Sorted(frozen, byName, byIndex, maxIndex) && IsSequence(keys)
    requires forall k :: k in frozen <==> k in keys && Followed(k)
    requires |elems| == maxIndex
    requires forall i | 0 <= i < maxIndex :: elems[i] == if i + 1 in byIndex then byIndex[i + 1] else FNil
    ensures Assemble(keys, frozen) == FArray(elems)
  {
    SomeIndex(keys);
    var n := MaxIndex(keys);
    assert KInt(n) in frozen && n in byIndex;
    assert maxIndex in byIndex && KInt(maxIndex) in keys;
    assert n == maxIndex;
    assert Assemble(keys, frozen).elems == elems;
  }

  lemma AssembleObject(
    keys: set<LuaKey>, frozen: map<LuaKey, Frozen>, byName: map<string, Frozen>, byIndex: map<nat, Frozen>,
    maxIndex: nat)
    requires Sorted(frozen, byName, byIndex, maxIndex) && !IsSequence(keys)
    ensures Assemble(keys, frozen) == FObject(byName)
  {
    assert Assemble(keys, frozen).fields == byName;
  }

  /*******************************************************************************
   *  The heap seen as a tree
   *******************************************************************************/

  /** The tree a value stands for, cut off where freezing gives up. */
  ghost function Unfold(h: Heap, v: Value, depth: nat): LuaValue
    requires Closed(h) && Allocated(h, v)
    decreases MAX_DEPTH + 1 - depth
  {
    if depth > MAX_DEPTH then Opaque else
    match v
    case VNil => Nil
    case VBool(b) => Bool(b)
    case VNum(r) => Num(r)
    case VStr(s) => Str(s)
    case VOpaque => Opaque
    case VRef(a) => Table(map k | k in h[a] :: Unfold(h, h[a][k], depth + 1))
  }

  /** Sharing and cycles make no difference: what is frozen is the unfolded tree. */
  lemma {:induction false} FreezeIsFreezeOfUnfolding(h: Heap, v: Value, depth: nat)
    requires Closed(h) && Allocated(h, v)
    ensures FreezeValue(h, v, depth) == Freeze.Freeze(Unfold(h, v, depth), depth)
    decreases MAX_DEPTH + 1 - depth
  {
    if v.VRef? && depth <= MAX_DEPTH {
      var m, t := h[v.address], Unfold(h, v, depth).entries;
      assert t.Keys == m.Keys;
      forall k | k in m ensures FreezeValue(h, m[k], depth + 1) == Freeze.Freeze(t[k], depth + 1) {
        FreezeIsFreezeOfUnfolding(h, m[k], depth + 1);
      }
      SameTable(h, v.address, t, depth);
    }
  }

  ghost predicate SameEntries(h: Heap, m: map<LuaKey, Value>, t: map<LuaKey, LuaValue>, depth: nat)
    requires Closed(h) && (forall k | k in m :: Allocated(h, m[k]))
  {
    && t.Keys == m.Keys
    && forall k | k in t :: FreezeValue(h, m[k], depth) == Freeze.Freeze(t[k], depth)
  }

  lemma SameTable(h: Heap, a: nat, t: map<LuaKey, LuaValue>, depth: nat)
    requires Closed(h) && a in h && depth <= MAX_DEPTH && SameEntries(h, h[a], t, depth + 1)
    ensures FreezeValue(h, VRef(a), depth) == Freeze.Freeze(Table(t), depth)
  {
    if k :| k in t && Followed(k) && Freeze.Freeze(t[k], depth + 1).None? {
      assert FreezeValue(h, h[a][k], depth + 1).None?;
    } else {
      SameFrozenTable(h, a, t, depth);
    }
  }

  lemma SameFrozenTable(h: Heap, a: nat, t: map<LuaKey, LuaValue>, depth: nat)
    requires Closed(h) && a in h && depth <= MAX_DEPTH && SameEntries(h, h[a], t, depth + 1)
    requires forall k | k in t && Followed(k) :: Freeze.Freeze(t[k], depth + 1).Some?
    ensures FreezeValue(h, VRef(a), depth) == Freeze.Freeze(Table(t), depth)
  {
    var frozen := FrozenEntries(t, depth + 1);
    assert FrozenSoFar(h, h[a], {}, depth + 1, frozen);
    FrozenAll(h, a, depth, frozen);
  }

  /*******************************************************************************
   *  Exactly when freezing fails
   *******************************************************************************/

  /** The value reached by following the keys one after the other, if freezing would follow them. */
  function Walk(h: Heap, v: Value, path: seq<LuaKey>): Option<Value>
    decreases |path|
  {
    if path == [] then Some(v)
    else if v.VRef? && v.address in h && path[0] in h[v.address] && (path[0].KStr? || IsIndex(path[0]))
    then Walk(h, h[v.address][path[0]], path[1..])
    else None
  }

  /** A followed path that is too long, or that ends at a function, userdata or thread. */
  predicate Obstacle(h: Heap, v: Value, depth: nat, path: seq<LuaKey>) {
    var end := Walk(h, v, path);
    end.Some? && (depth + |path| > 64 || end.value == VOpaque)
  }

  lemma {:induction false} FailureHasObstacle(h: Heap, v: Value, depth: nat) returns (path: seq<LuaKey>)
    requires Closed(h) && Allocated(h, v) && FreezeValue(h, v, depth).None?
    ensures Obstacle(h, v, depth, path)
    decreases MAX_DEPTH + 1 - depth
  {
    if depth > MAX_DEPTH || v.VOpaque? {
      path := [];
    } else {
      var m := h[v.address];
      var k :| k in m && Followed(k) && FreezeValue(h, m[k], depth + 1).None?;
      var tail := FailureHasObstacle(h, m[k], depth + 1);
      path := [k] + tail;
    }
  }

  lemma {:induction false} ObstacleFails(h: Heap, v: Value, depth: nat, path: seq<LuaKey>)
    requires Closed(h) && Allocated(h, v) && Obstacle(h, v, depth, path)
    ensures FreezeValue(h, v, depth).None?
    decreases |path|
  {
    if depth <= MAX_DEPTH && path != [] {
      ObstacleFails(h, h[v.address][path[0]], depth + 1, path[1..]);
    }
  }

  /** Cyclic or not: freezing fails exactly when there is an obstacle to be reached. */
  lemma FailsIffObstacle(h: Heap, v: Value)
    requires Closed(h) && Allocated(h, v)
    ensures FreezeValue(h, v, 0).None? <==> exists path :: Obstacle(h, v, 0, path)
  {
    if FreezeValue(h, v, 0).None? {
      var path := FailureHasObstacle(h, v, 0);
    }
    forall path | Obstacle(h, v, 0, path) ensures FreezeValue(h, v, 0).None? {
      ObstacleFails(h, v, 0, path);
    }
  }

  lemma EntryFails(h: Heap, a: nat, k: LuaKey, depth: nat)
    requires Closed(h) && a in h && k in h[a] && Followed(k) && depth <= MAX_DEPTH
    requires FreezeValue(h, h[a][k], depth + 1).None?
    ensures FreezeValue(h, VRef(a), depth).None?
  {
  }

  /** A table that contains itself under a followed key can never be frozen. */
  lemma {:induction false} SelfReferenceFails(h: Heap, a: nat, k: LuaKey, depth: nat)
    requires Closed(h) && a in h && k in h[a] && h[a][k] == VRef(a) && Followed(k)
    ensures FreezeValue(h, VRef(a), depth).None?
    decreases MAX_DEPTH + 1 - depth
  {
    if depth <= MAX_DEPTH {
      SelfReferenceFails(h, a, k, depth + 1);
      EntryFails(h, a, k, depth);
    }
  }
}
