/**
 The arguments of a global event travel between Lua states as JSON. Nils are carried as a placeholder string,
 so that they keep their places.
 */
module GlobalEvents {
  import opened Json
  import opened LuaValues
  import opened Wrappers

  const INTERNAL_NIL := "BEAMMP_SERVER_INTERNAL_NIL_VALUE"
  const MAX_JSON_DEPTH := 100

  /** What is left to the Lua runtime: the order a table is iterated in, and how a number key is printed. */
  datatype Runtime = Runtime(order: map<LuaKey, LuaValue> -> seq<LuaKey>, keyText: LuaKey -> string)

  ghost predicate Distinct(ks: seq<LuaKey>) {
    forall i, j | 0 <= i < j < |ks| :: ks[i] != ks[j]
  }

  /** The keys 1 to n, and no others. */
  ghost predicate Dense(keys: set<LuaKey>) {
    keys == IndexKeys(|keys|)
  }

  /** Every key once; a sequence in index order. */
  ghost predicate IsTraversal(m: map<LuaKey, LuaValue>, ks: seq<LuaKey>) {
    && Distinct(ks) && |ks| == |m|
    && (forall k :: k in ks <==> k in m)
    && (Dense(m.Keys) ==> forall i | 0 <= i < |ks| :: ks[i] == KInt(i + 1))
  }

  ghost predicate ValidRuntime(rt: Runtime) {
    && (forall m :: IsTraversal(m, rt.order(m)))
    && (forall k :: rt.keyText(k) != "")
  }

  /*******************************************************************************
   *  Encoding
   *******************************************************************************/

  predicate IsNumberKey(k: LuaKey) {
    k.KInt? || k.KFraction?
  }

  /** Booleans, tables and functions as keys are reported and left out. */
  predicate EncodableKey(k: LuaKey) {
    k.KStr? || IsNumberKey(k)
  }

  predicate IsArrayTable(m: map<LuaKey, LuaValue>) {
    forall k | k in m :: IsNumberKey(k)
  }

  function Text(rt: Runtime, k: LuaKey): string {
    if k.KStr? then k.s else rt.keyText(k)
  }

  /** Appends to an array or sets a member; both start from null. */
  function Put(json: Json, isArray: bool, key: string, value: Json): Json {
    if isArray then JArr((if json.JArr? then json.elems else []) + [value])
    else JObj((if json.JObj? then json.fields else map[])[key := value])
  }

  /** The JSON for a value at some depth; None when the entry is left out. */
  function Encode(rt: Runtime, v: LuaValue, depth: nat): Option<Json>
    decreases v, 1, 0
  {
    if depth > MAX_JSON_DEPTH then None else
    match v
    case Nil => None
    case Opaque => None
    case Bool(b) => Some(JBool(b))
    case Num(r) => Some(if FitsInt(r) then JInt(r.Floor) else JDouble(r))
    case Str(s) => Some(JStr(s))
    case Table(m) => Some(EncodeTable(rt, v, depth + 1))
  }

  function EncodeTable(rt: Runtime, t: LuaValue, depth: nat): Json
    requires t.Table?
    decreases t, 0, |rt.order(t.entries)| + 1
  {
    if t.entries == map[] then JObj(map[])
    else EncodeEntries(rt, t, rt.order(t.entries), depth)
  }

  function EncodeEntries(rt: Runtime, t: LuaValue, ks: seq<LuaKey>, depth: nat): Json
    requires t.Table?
    decreases t, 0, |ks|
  {
    if ks == [] then JNull
    else
      var before, k := EncodeEntries(rt, t, ks[..|ks| - 1], depth), ks[|ks| - 1];
      if k !in t.entries || !EncodableKey(k) then before
      else match Encode(rt, t.entries[k], depth)
        case None => before
        case Some(value) => Put(before, IsArrayTable(t.entries), Text(rt, k), value)
  }

  /*******************************************************************************
   *  Decoding
   *******************************************************************************/

  /** A list as a table; a nil appended to a table changes nothing. */
  function ListTable(values: seq<LuaValue>): LuaValue {
    Table(map k | k in IndexKeys(|values|) :: values[k.i - 1])
  }

  function WithoutNils(values: seq<LuaValue>): seq<LuaValue> {
    if values == [] then []
    else
      var before, last := WithoutNils(values[..|values| - 1]), values[|values| - 1];
      if last == Nil then before else before + [last]
  }

  /** A member with an empty name is appended to the table instead; it comes first in the object. */
  function Decode(j: Json): LuaValue {
    match j
    case JNull => Nil
    case JBool(b) => Bool(b)
    case JInt(i) => Num(i as real)
    case JDouble(r) => Num(r)
    case JStr(s) => Str(s)
    case JArr(a) => ListTable(WithoutNils(seq(|a|, i requires 0 <= i < |a| => Decode(a[i]))))
    case JObj(o) =>
      var named := map k | k in StringKeys(o.Keys) && k.s != "" && Decode(o[k.s]) != Nil :: Decode(o[k.s]);
      Table(if "" in o && Decode(o[""]) != Nil then named[KInt(1) := Decode(o[""])] else named)
  }

  /*******************************************************************************
   *  The round trip of one value
   *******************************************************************************/

  predicate NonEmptyNames(keys: set<LuaKey>) {
    forall k | k in keys :: k.KStr? && k.s != ""
  }

  /** Values that JSON carries unchanged: dense sequences and tables with non-empty names, not too deep. */
  ghost predicate Faithful(v: LuaValue, depth: nat) {
    && depth <= 100
    && match v
       case Nil => false
       case Opaque => false
       case Table(m) =>
         m != map[] ==>
           && (Dense(m.Keys) || NonEmptyNames(m.Keys))
           && forall k | k in m :: Faithful(m[k], depth + 1)
       case _ => true
  }

  /** The value survives being encoded and decoded. */
  predicate Survives(rt: Runtime, v: LuaValue, depth: nat) {
    var e := Encode(rt, v, depth);
    e.Some? && Decode(e.value) == v
  }

  predicate AllSurvive(rt: Runtime, m: map<LuaKey, LuaValue>, depth: nat) {
    forall k | k in m :: Survives(rt, m[k], depth)
  }

  /** An entry that is passed on, and what it arrives as. */
  predicate ArrivesAs(rt: Runtime, t: LuaValue, k: LuaKey, depth: nat, value: LuaValue)
    requires t.Table?
  {
    && k in t.entries && EncodableKey(k)
    && Encode(rt, t.entries[k], depth).Some? && Decode(Encode(rt, t.entries[k], depth).value) == value
  }

  /** What the entries of an array table arrive as, in order. */
  function Arrived(rt: Runtime, t: LuaValue, ks: seq<LuaKey>, depth: nat): seq<LuaValue>
    requires t.Table?
    decreases |ks|
  {
    if ks == [] then []
    else
      var before, k := Arrived(rt, t, ks[..|ks| - 1], depth), ks[|ks| - 1];
      if k !in t.entries || !EncodableKey(k) then before
      else match Encode(rt, t.entries[k], depth)
        case None => before
        case Some(value) => if Decode(value) == Nil then before else before + [Decode(value)]
  }

  function DecodeAll(a: seq<Json>): seq<LuaValue> {
    seq(|a|, i requires 0 <= i < |a| => Decode(a[i]))
  }

  lemma DecodeAllAppend(a: seq<Json>, x: Json)
    ensures WithoutNils(DecodeAll(a + [x])) == WithoutNils(DecodeAll(a)) + if Decode(x) == Nil then [] else [Decode(x)]
  {
    var values := DecodeAll(a + [x]);
    assert values[..|values| - 1] == DecodeAll(a);
  }

  lemma {:induction false} ArrayArrives(rt: Runtime, t: LuaValue, ks: seq<LuaKey>, depth: nat)
    requires t.Table? && IsArrayTable(t.entries)
    ensures
      var j := EncodeEntries(rt, t, ks, depth);
      && (j.JNull? || j.JArr?)
      && WithoutNils(DecodeAll(if j.JArr? then j.elems else [])) == Arrived(rt, t, ks, depth)
    decreases |ks|
  {
    if ks != [] {
      var before, k := EncodeEntries(rt, t, ks[..|ks| - 1], depth), ks[|ks| - 1];
      ArrayArrives(rt, t, ks[..|ks| - 1], depth);
      if k in t.entries && EncodableKey(k) && Encode(rt, t.entries[k], depth).Some? {
        DecodeAllAppend(if before.JArr? then before.elems else [], Encode(rt, t.entries[k], depth).value);
      }
    }
  }

  /** No more arrives than was sent, and if as much arrives, it arrives in the same places. */
  lemma {:induction false} ArrivedBound(rt: Runtime, t: LuaValue, ks: seq<LuaKey>, depth: nat)
    requires t.Table?
    ensures |Arrived(rt, t, ks, depth)| <= |ks|
    ensures |Arrived(rt, t, ks, depth)| == |ks| ==>
      forall i | 0 <= i < |ks| :: ArrivesAs(rt, t, ks[i], depth, Arrived(rt, t, ks, depth)[i])
    decreases |ks|
  {
    if ks != [] {
      ArrivedBound(rt, t, ks[..|ks| - 1], depth);
    }
  }

  lemma {:induction false} AllArrive(rt: Runtime, t: LuaValue, ks: seq<LuaKey>, depth: nat)
    requires t.Table?
    requires forall i | 0 <= i < |ks| ::
      ks[i] in t.entries && t.entries[ks[i]] != Nil && ArrivesAs(rt, t, ks[i], depth, t.entries[ks[i]])
    ensures Arrived(rt, t, ks, depth) == seq(|ks|, i requires 0 <= i < |ks| => t.entries[ks[i]])
    decreases |ks|
  {
    if ks != [] {
      AllArrive(rt, t, ks[..|ks| - 1], depth);
    }
  }

  lemma ArrayDecodes(rt: Runtime, m: map<LuaKey, LuaValue>, depth: nat)
    requires m != map[] && IsArrayTable(m)
    ensures
      var arrived := Arrived(rt, Table(m), rt.order(m), depth);
      var d := Decode(EncodeTable(rt, Table(m), depth));
      if EncodeTable(rt, Table(m), depth).JNull? then d == Nil && arrived == [] else d == ListTable(arrived)
  {
    var ks := rt.order(m);
    ArrayArrives(rt, Table(m), ks, depth);
    var j := EncodeEntries(rt, Table(m), ks, depth);
    if j.JArr? {
      assert seq(|j.elems|, i requires 0 <= i < |j.elems| => Decode(j.elems[i])) == DecodeAll(j.elems);
    }
  }

  lemma ArrayTableSurvives(rt: Runtime, m: map<LuaKey, LuaValue>, depth: nat)
    requires ValidRuntime(rt) && m != map[] && IsArrayTable(m)
    requires Decode(EncodeTable(rt, Table(m), depth)) == Table(m)
    ensures Dense(m.Keys) && AllSurvive(rt, m, depth)
  {
    var ks := rt.order(m);
    assert IsTraversal(m, ks);
    var arrived := Arrived(rt, Table(m), ks, depth);
    ArrayDecodes(rt, m, depth);
    ArrivedBound(rt, Table(m), ks, depth);
    ListOfTable(arrived, m);
    forall k | k in m ensures ArrivesAs(rt, Table(m), k, depth, m[k]) {
      var i :| 0 <= i < |ks| && ks[i] == k;
      assert k == KInt(i + 1) && arrived[i] == m[k];
    }
  }

  lemma DenseTableSurvives(rt: Runtime, m: map<LuaKey, LuaValue>, depth: nat)
    requires ValidRuntime(rt) && m != map[] && IsArrayTable(m)
    requires forall k | k in m :: m[k] != Nil
    requires Dense(m.Keys) && AllSurvive(rt, m, depth)
    ensures Decode(EncodeTable(rt, Table(m), depth)) == Table(m)
  {
    var ks := rt.order(m);
    assert IsTraversal(m, ks);
    ArrayDecodes(rt, m, depth);
    forall i | 0 <= i < |ks| ensures ArrivesAs(rt, Table(m), ks[i], depth, m[ks[i]]) {
      assert Survives(rt, m[ks[i]], depth);
    }
    AllArrive(rt, Table(m), ks, depth);
    TableOfList(Arrived(rt, Table(m), ks, depth), m);
  }

  /** The keys of a list's table are dense, and its size is the list's. */
  lemma ListOfTable(values: seq<LuaValue>, m: map<LuaKey, LuaValue>)
    requires ListTable(values) == Table(m)
    ensures Dense(m.Keys) && |m| == |values|
    ensures forall i | 0 <= i < |values| :: KInt(i + 1) in m && m[KInt(i + 1)] == values[i]
  {
    assert m.Keys == IndexKeys(|values|);
    IndexKeysSize(|values|);
  }

  lemma TableOfList(values: seq<LuaValue>, m: map<LuaKey, LuaValue>)
    requires m.Keys == IndexKeys(|values|)
    requires forall i | 0 <= i < |values| :: KInt(i + 1) in m && m[KInt(i + 1)] == values[i]
    ensures ListTable(values) == Table(m)
  {
    assert forall k | k in m :: k == KInt(k.i - 1 + 1);
    assert ListTable(values).entries == m;
  }

  /** The members of an encoded object come from the entries; an empty name only from an empty name. */
  lemma {:induction false} ObjectMembers(rt: Runtime, t: LuaValue, ks: seq<LuaKey>, depth: nat)
    requires ValidRuntime(rt) && t.Table? && !IsArrayTable(t.entries)
    ensures
      var j := EncodeEntries(rt, t, ks, depth);
      && (j.JNull? || j.JObj?)
      && (j.JObj? && "" in j.fields ==> KStr("") in t.entries)
    decreases |ks|
  {
    if ks != [] {
      ObjectMembers(rt, t, ks[..|ks| - 1], depth);
      var k := ks[|ks| - 1];
      assert k.KStr? && k.s == "" ==> k == KStr("");
    }
  }

  /** The member a named entry is encoded as. */
  function Member(rt: Runtime, m: map<LuaKey, LuaValue>, name: string, depth: nat): Option<Json> {
    if KStr(name) in m then Encode(rt, m[KStr(name)], depth) else None
  }

  lemma {:induction false} NamedMembers(rt: Runtime, t: LuaValue, ks: seq<LuaKey>, depth: nat)
    requires t.Table? && !IsArrayTable(t.entries) && AllStrings(t.entries.Keys)
    ensures
      var j := EncodeEntries(rt, t, ks, depth);
      var o := if j.JObj? then j.fields else map[];
      && (j.JNull? || j.JObj?)
      && forall name :: (name in o <==> KStr(name) in ks && Member(rt, t.entries, name, depth).Some?)
           && (name in o ==> o[name] == Member(rt, t.entries, name, depth).value)
    decreases |ks|
  {
    if ks != [] {
      var before, k := ks[..|ks| - 1], ks[|ks| - 1];
      NamedMembers(rt, t, before, depth);
      assert ks == before + [k];
      assert forall name :: KStr(name) in ks <==> KStr(name) in before || k == KStr(name);
    }
  }

  lemma ObjectTableSurvives(rt: Runtime, m: map<LuaKey, LuaValue>, depth: nat)
    requires ValidRuntime(rt) && m != map[] && !IsArrayTable(m)
    requires forall k | k in m :: m[k] != Nil
    ensures Decode(EncodeTable(rt, Table(m), depth)) == Table(m)
       <==> NonEmptyNames(m.Keys) && AllSurvive(rt, m, depth)
  {
    var t, ks := Table(m), rt.order(m);
    assert IsTraversal(m, ks);
    var j := EncodeEntries(rt, t, ks, depth);
    ObjectMembers(rt, t, ks, depth);
    if Decode(j) == t {
      DecodedNames(j.fields);
      assert KStr("") !in m && NonEmptyNames(m.Keys);
    }
    if NonEmptyNames(m.Keys) {
      NamedMembers(rt, t, ks, depth);
      var o := if j.JObj? then j.fields else map[];
      NamedTableSurvives(rt, m, o, depth);
      if j.JNull? {
        var k :| k in m;
        assert k == KStr(k.s) && k.s !in o && Member(rt, m, k.s, depth).None?;
      }
    }
  }

  /** No decoded table has an empty name, and only an empty member name gives it an index. */
  lemma DecodedNames(o: map<string, Json>)
    ensures forall k | k in Decode(JObj(o)).entries :: k != KStr("") && ("" !in o ==> k.KStr?)
  {
  }

  lemma NamedTableSurvives(rt: Runtime, m: map<LuaKey, LuaValue>, o: map<string, Json>, depth: nat)
    requires NonEmptyNames(m.Keys) && forall k | k in m :: m[k] != Nil
    requires forall name :: name in o <==> Member(rt, m, name, depth).Some?
    requires forall name | name in o :: o[name] == Member(rt, m, name, depth).value
    ensures Decode(JObj(o)) == Table(m) <==> AllSurvive(rt, m, depth)
  {
    var d := Decode(JObj(o)).entries;
    assert KStr("") !in m && "" !in o;
    assert forall k :: k in d <==> k.KStr? && k.s in o && Decode(o[k.s]) != Nil;
    assert forall k | k in m :: k == KStr(k.s);
    if d == m {
      forall k | k in m ensures Survives(rt, m[k], depth) {
        assert k in d && d[k] == Decode(o[k.s]);
      }
    }
    if AllSurvive(rt, m, depth) {
      forall k | k in m ensures k in d && d[k] == m[k] {
        assert Member(rt, m, k.s, depth) == Encode(rt, m[k], depth);
      }
      assert forall k | k in d :: k == KStr(k.s) && k in m;
      assert d == m;
    }
  }

  lemma TableSurvives(rt: Runtime, m: map<LuaKey, LuaValue>, depth: nat)
    requires ValidRuntime(rt) && m != map[]
    requires forall k | k in m :: m[k] != Nil
    ensures Decode(EncodeTable(rt, Table(m), depth)) == Table(m)
       <==> (Dense(m.Keys) || NonEmptyNames(m.Keys)) && AllSurvive(rt, m, depth)
  {
    var k :| k in m;
    if IsArrayTable(m) {
      assert !NonEmptyNames(m.Keys);
      if Decode(EncodeTable(rt, Table(m), depth)) == Table(m) {
        ArrayTableSurvives(rt, m, depth);
      } else if Dense(m.Keys) && AllSurvive(rt, m, depth) {
        DenseTableSurvives(rt, m, depth);
        assert false;
      }
    } else {
      assert !Dense(m.Keys);
      ObjectTableSurvives(rt, m, depth);
    }
  }

  /** A value comes through JSON unchanged exactly when it is faithful. */
  lemma {:induction false} SurvivesIffFaithful(rt: Runtime, v: LuaValue, depth: nat)
    requires ValidRuntime(rt) && NilFree(v) && v != Nil
    ensures Survives(rt, v, depth) <==> Faithful(v, depth)
    decreases v, 1
  {
    if !v.Table? || depth > MAX_JSON_DEPTH {
      ScalarSurvives(rt, v, depth);
    } else if v.entries == map[] {
      EmptyTableSurvives(rt, depth + 1);
    } else {
      AllSurviveIffAllFaithful(rt, v, depth + 1);
      TableSurvives(rt, v.entries, depth + 1);
      SurvivesAsTable(rt, v.entries, depth);
      FaithfulAsTable(v.entries, depth);
    }
  }

  lemma {:induction false} AllSurviveIffAllFaithful(rt: Runtime, v: LuaValue, depth: nat)
    requires ValidRuntime(rt) && v.Table? && NilFree(v)
    ensures AllSurvive(rt, v.entries, depth) <==> AllFaithful(v.entries, depth)
    decreases v, 0
  {
    forall k | k in v.entries ensures Survives(rt, v.entries[k], depth) <==> Faithful(v.entries[k], depth) {
      SurvivesIffFaithful(rt, v.entries[k], depth);
    }
  }

  lemma ScalarSurvives(rt: Runtime, v: LuaValue, depth: nat)
    requires v != Nil && (v.Table? ==> depth > MAX_JSON_DEPTH)
    ensures Survives(rt, v, depth) <==> Faithful(v, depth)
  {
  }

  ghost predicate AllFaithful(m: map<LuaKey, LuaValue>, depth: nat) {
    forall k | k in m :: Faithful(m[k], depth)
  }

  lemma FaithfulAsTable(m: map<LuaKey, LuaValue>, depth: nat)
    requires m != map[] && depth <= MAX_JSON_DEPTH
    ensures Faithful(Table(m), depth)
       <==> (Dense(m.Keys) || NonEmptyNames(m.Keys)) && AllFaithful(m, depth + 1)
  {
  }

  lemma EmptyTableSurvives(rt: Runtime, depth: nat)
    ensures Decode(EncodeTable(rt, Table(map[]), depth)) == Table(map[])
  {
    assert StringKeys({}) == {};
    assert Decode(JObj(map[])).entries == map[];
  }

  lemma SurvivesAsTable(rt: Runtime, m: map<LuaKey, LuaValue>, depth: nat)
    requires depth <= MAX_JSON_DEPTH
    ensures Survives(rt, Table(m), depth) <==> Decode(EncodeTable(rt, Table(m), depth + 1)) == Table(m)
  {
  }

  /*******************************************************************************
   *  The recursive routines with their loops
   *******************************************************************************/

  /** Whether every key is a number. */
  method AllNumberKeys(m: map<LuaKey, LuaValue>, ks: seq<LuaKey>) returns (isArray: bool)
    requires forall k :: k in ks <==> k in m
    ensures isArray <==> IsArrayTable(m)
  {
    isArray := true;
    for i := 0 to |ks|
      invariant isArray <==> forall j | 0 <= j < i :: IsNumberKey(ks[j])
    {
      if !IsNumberKey(ks[i]) {
        isArray := false;
      }
    }
    assert forall k | k in m :: exists i :: 0 <= i < |ks| && ks[i] == k;
  }

  lemma EncodeOneMore(rt: Runtime, t: LuaValue, ks: seq<LuaKey>, i: nat, depth: nat)
    requires t.Table? && i < |ks| && ks[i] in t.entries
    ensures
      var before, e := EncodeEntries(rt, t, ks[..i], depth), Encode(rt, t.entries[ks[i]], depth);
      EncodeEntries(rt, t, ks[..i + 1], depth) ==
        if EncodableKey(ks[i]) && e.Some?
        then Put(before, IsArrayTable(t.entries), Text(rt, ks[i]), e.value) else before
  {
    assert ks[..i + 1][..i] == ks[..i];
  }

  lemma TraversalKeys(rt: Runtime, m: map<LuaKey, LuaValue>)
    requires ValidRuntime(rt)
    ensures forall k :: k in rt.order(m) <==> k in m
  {
    assert IsTraversal(m, rt.order(m));
  }

  method JsonEncodeTable(rt: Runtime, t: LuaValue, depth: nat) returns (json: Json)
    requires ValidRuntime(rt) && t.Table?
    ensures json == EncodeTable(rt, t, depth)
    decreases t, 0
  {
    if t.entries == map[] {
      return JObj(map[]);
    }
    var ks := rt.order(t.entries);
    TraversalKeys(rt, t.entries);
    var isArray := AllNumberKeys(t.entries, ks);
    json := JNull;
    for i := 0 to |ks|
      invariant json == EncodeEntries(rt, t, ks[..i], depth)
    {
      assert ks[i] in ks;
      EncodeOneMore(rt, t, ks, i, depth);
      json := JsonEncodeRecursive(rt, json, ks[i], t.entries[ks[i]], isArray, depth);
    }
    assert ks[..|ks|] == ks;
  }

  /** Adds one entry to the JSON built so far, or leaves it out. */
  method JsonEncodeRecursive(rt: Runtime, json: Json, key: LuaKey, value: LuaValue, isArray: bool, depth: nat)
    returns (json': Json)
    requires ValidRuntime(rt)
    ensures json' == if EncodableKey(key) && Encode(rt, value, depth).Some?
                     then Put(json, isArray, Text(rt, key), Encode(rt, value, depth).value) else json
    decreases value, 1
  {
    if depth > MAX_JSON_DEPTH || !EncodableKey(key) {
      return json;
    }
    var j: Json;
    match value {
      case Nil => return json;
      case Opaque => return json;
      case Bool(b) => j := JBool(b);
      case Num(r) => j := if FitsInt(r) then JInt(r.Floor) else JDouble(r);
      case Str(s) => j := JStr(s);
      case Table(m) => j := JsonEncodeTable(rt, value, depth + 1);
    }
    return Put(json, isArray, Text(rt, key), j);
  }

  /** Storing under an empty name appends; storing nil leaves no entry. */
  method AddToTable(table: map<LuaKey, LuaValue>, left: string, value: LuaValue) returns (table': map<LuaKey, LuaValue>)
    requires left == "" ==> Dense(table.Keys)
    ensures left == "" ==> table' == if value == Nil then table else table[KInt(|table| + 1) := value]
    ensures left != "" ==> table' == if value == Nil then table - {KStr(left)} else table[KStr(left) := value]
  {
    var k := if left == "" then KInt(|table| + 1) else KStr(left);
    IndexKeysSize(|table|);
    table' := if value == Nil then table - {k} else table[k := value];
    if left == "" && value == Nil {
      assert k !in table && table' == table;
    }
  }

  method JsonDecodeRecursive(j: Json) returns (value: LuaValue)
    ensures value == Decode(j)
    decreases j, 2
  {
    match j
    case JNull => return Nil;
    case JBool(b) => return Bool(b);
    case JInt(i) => return Num(i as real);
    case JDouble(r) => return Num(r);
    case JStr(s) => return Str(s);
    case JArr(a) =>
      var table: map<LuaKey, LuaValue> := map[];
      ghost var values: seq<LuaValue> := [];
      assert ListTable([]).entries == map[];
      for i := 0 to |a|
        invariant values == WithoutNils(DecodeAll(a[..i]))
        invariant Table(table) == ListTable(values)
      {
        var element := JsonDecodeRecursive(a[i]);
        DecodeAllAppend(a[..i], a[i]);
        assert a[..i + 1] == a[..i] + [a[i]];
        ListOfTable(values, table);
        table := AddToTable(table, "", element);
        if element != Nil {
          ListTableAppend(values, element);
          values := values + [element];
        }
      }
      assert a[..|a|] == a;
      assert seq(|a|, i requires 0 <= i < |a| => Decode(a[i])) == DecodeAll(a);
      return Table(table);
    case JObj(o) =>
      value := JsonDecodeObject(o);
  }

  lemma ListTableAppend(values: seq<LuaValue>, v: LuaValue)
    ensures ListTable(values + [v]) == Table(ListTable(values).entries[KInt(|values| + 1) := v])
  {
    assert ListTable(values + [v]).entries == ListTable(values).entries[KInt(|values| + 1) := v];
  }

  /** The members decoded so far, the one with the empty name aside. */
  function NamedSoFar(o: map<string, Json>, rest: set<string>): map<LuaKey, LuaValue> {
    map k | k in StringKeys(o.Keys) && k.s != "" && k.s !in rest && Decode(o[k.s]) != Nil :: Decode(o[k.s])
  }

  /** What the member with the empty name, if there is one, leaves in the table. */
  function FirstEntry(o: map<string, Json>): map<LuaKey, LuaValue> {
    if "" in o && Decode(o[""]) != Nil then map[KInt(1) := Decode(o[""])] else map[]
  }

  function TableSoFar(o: map<string, Json>, rest: set<string>): map<LuaKey, LuaValue> {
    NamedSoFar(o, rest) + FirstEntry(o)
  }

  lemma TableStarted(o: map<string, Json>)
    ensures TableSoFar(o, o.Keys - {""}) == FirstEntry(o)
  {
    assert NamedSoFar(o, o.Keys - {""}) == map[];
  }

  lemma NamedOneMore(o: map<string, Json>, rest: set<string>, name: string)
    requires name in rest && name in o && name != ""
    ensures KStr(name) !in NamedSoFar(o, rest)
    ensures NamedSoFar(o, rest - {name}) ==
      if Decode(o[name]) == Nil then NamedSoFar(o, rest) else NamedSoFar(o, rest)[KStr(name) := Decode(o[name])]
  {
    var more := NamedSoFar(o, rest - {name});
    if Decode(o[name]) == Nil {
      assert more == NamedSoFar(o, rest);
    } else {
      assert more == NamedSoFar(o, rest)[KStr(name) := Decode(o[name])];
    }
  }

  lemma MergeUpdate(a: map<LuaKey, LuaValue>, b: map<LuaKey, LuaValue>, k: LuaKey, v: LuaValue)
    requires k !in a && k !in b
    ensures a[k := v] + b == (a + b)[k := v]
    ensures a + b - {k} == a + b
  {
  }

  lemma TableOneMore(o: map<string, Json>, rest: set<string>, name: string)
    requires name in rest && name in o && name != ""
    ensures TableSoFar(o, rest - {name}) ==
      if Decode(o[name]) == Nil then TableSoFar(o, rest) - {KStr(name)}
      else TableSoFar(o, rest)[KStr(name) := Decode(o[name])]
  {
    NamedOneMore(o, rest, name);
    MergeUpdate(NamedSoFar(o, rest), FirstEntry(o), KStr(name), Decode(o[name]));
  }

  lemma TableDone(o: map<string, Json>)
    ensures Decode(JObj(o)) == Table(TableSoFar(o, {}))
  {
    assert Decode(JObj(o)).entries == TableSoFar(o, {});
  }

  method JsonDecodeFirst(o: map<string, Json>) returns (table: map<LuaKey, LuaValue>)
    ensures table == FirstEntry(o)
    decreases JObj(o), 0
  {
    table := map[];
    if "" in o {
      var member := JsonDecodeRecursive(o[""]);
      assert IndexKeys(0) == {};
      table := AddToTable(table, "", member);
    }
  }

  /** Members come in the order of their names, the empty name first. */
  method JsonDecodeObject(o: map<string, Json>) returns (value: LuaValue)
    ensures value == Decode(JObj(o))
    decreases JObj(o), 1
  {
    var table := JsonDecodeFirst(o);
    TableStarted(o);
    var rest := o.Keys - {""};
    while rest != {}
      invariant rest <= o.Keys && "" !in rest
      invariant table == TableSoFar(o, rest)
      decreases rest
    {
      var name :| name in rest;
      var member := JsonDecodeRecursive(o[name]);
      TableOneMore(o, rest, name);
      table := AddToTable(table, name, member);
      rest := rest - {name};
    }
    TableDone(o);
    return Table(table);
  }

  /*******************************************************************************
   *  The argument list of a global event
   *******************************************************************************/

  /** Nils and values that cannot be serialised are replaced by the placeholder. */
  function Prepare(arg: LuaValue): LuaValue {
    if arg == Nil || arg == Opaque then Str(INTERNAL_NIL) else arg
  }

  function Restore(arg: LuaValue): LuaValue {
    if arg == Str(INTERNAL_NIL) then Nil else arg
  }

  function Prepared(args: seq<LuaValue>): seq<LuaValue> {
    seq(|args|, i requires 0 <= i < |args| => Prepare(args[i]))
  }

  function Restored(args: seq<LuaValue>): seq<LuaValue> {
    seq(|args|, i requires 0 <= i < |args| => Restore(args[i]))
  }

  function Send(rt: Runtime, args: seq<LuaValue>): Json {
    EncodeTable(rt, ListTable(Prepared(args)), 0)
  }

  /** The elements of a table from index 1 up to the first that is missing. */
  function Elements(m: map<LuaKey, LuaValue>, from: nat): seq<LuaValue>
    requires from >= 1
    decreases m.Keys - IndexKeys(from - 1)
  {
    if KInt(from) in m then
      assert KInt(from) in m.Keys - IndexKeys(from - 1) && KInt(from) !in m.Keys - IndexKeys(from);
      [m[KInt(from)]] + Elements(m, from + 1)
    else []
  }

  /** What the handlers in another state are called with. */
  function Receive(j: Json): seq<LuaValue> {
    var t := Decode(j);
    if t.Table? then Restored(Elements(t.entries, 1)) else []
  }

  lemma {:induction false} ElementsOfList(values: seq<LuaValue>, from: nat)
    requires 1 <= from <= |values| + 1
    ensures Elements(ListTable(values).entries, from) == values[from - 1..]
    decreases |values| - from + 1
  {
    if from <= |values| {
      ElementsOfList(values, from + 1);
    }
  }

  /** An argument that arrives as it was sent. */
  ghost predicate Transparent(arg: LuaValue) {
    arg == Nil || (Faithful(arg, 0) && arg != Str("BEAMMP_SERVER_INTERNAL_NIL_VALUE"))
  }

  function ArrivedArgs(rt: Runtime, args: seq<LuaValue>): seq<LuaValue> {
    var t := ListTable(Prepared(args));
    Arrived(rt, t, rt.order(t.entries), 0)
  }

  lemma SentArrives(rt: Runtime, args: seq<LuaValue>)
    requires ValidRuntime(rt)
    ensures Receive(Send(rt, args)) == Restored(ArrivedArgs(rt, args))
  {
    var m := ListTable(Prepared(args)).entries;
    if args == [] {
      assert IsTraversal(m, rt.order(m));
      EmptyTableSurvives(rt, 0);
    } else {
      assert KInt(1) in m;
      ArrayDecodes(rt, m, 0);
      ElementsOfList(ArrivedArgs(rt, args), 1);
    }
  }

  /** The table of the arguments is passed in order. */
  lemma ArgumentsInOrder(rt: Runtime, args: seq<LuaValue>)
    requires ValidRuntime(rt)
    ensures var m := ListTable(Prepared(args)).entries;
      && |rt.order(m)| == |args|
      && forall i | 0 <= i < |args| ::
           rt.order(m)[i] in m && m[rt.order(m)[i]] == Prepare(args[i]) && EncodableKey(rt.order(m)[i])
  {
    var m := ListTable(Prepared(args)).entries;
    assert m.Keys == IndexKeys(|args|);
    IndexKeysSize(|args|);
    assert IsTraversal(m, rt.order(m));
  }

  lemma ArrivedTransparent(rt: Runtime, args: seq<LuaValue>, i: nat)
    requires ValidRuntime(rt) && i < |args| && NilFree(args[i])
    requires Restored(ArrivedArgs(rt, args)) == args
    ensures Transparent(args[i])
  {
    var t := ListTable(Prepared(args));
    var ks, arrived := rt.order(t.entries), ArrivedArgs(rt, args);
    ArgumentsInOrder(rt, args);
    ArrivedBound(rt, t, ks, 0);
    assert |Restored(arrived)| == |arrived|;
    assert args[i] == Restored(arrived)[i] == Restore(arrived[i]);
    assert ArrivesAs(rt, t, ks[i], 0, arrived[i]);
    ArgumentTransparent(rt, args[i], arrived[i]);
  }

  lemma ArgumentTransparent(rt: Runtime, arg: LuaValue, arrived: LuaValue)
    requires ValidRuntime(rt) && NilFree(arg)
    requires Encode(rt, Prepare(arg), 0).Some? && Decode(Encode(rt, Prepare(arg), 0).value) == arrived
    requires Restore(arrived) == arg
    ensures Transparent(arg)
  {
    if arg != Nil && arg != Opaque {
      SurvivesIffFaithful(rt, arg, 0);
    }
  }

  /**
   Every argument list arrives with its nils, trailing ones included, in their places, exactly when each
   argument is nil or a faithful value other than the placeholder.
   */
  lemma ArgumentsRoundTrip(rt: Runtime, args: seq<LuaValue>)
    requires ValidRuntime(rt) && forall i | 0 <= i < |args| :: NilFree(args[i])
    ensures Receive(Send(rt, args)) == args <==> forall i | 0 <= i < |args| :: Transparent(args[i])
  {
    SentArrives(rt, args);
    if Receive(Send(rt, args)) == args {
      forall i | 0 <= i < |args| ensures Transparent(args[i]) {
        ArrivedTransparent(rt, args, i);
      }
    }
    if forall i | 0 <= i < |args| :: Transparent(args[i]) {
      CarriedArrive(rt, args);
      assert Restored(Prepared(args)) == args;
    }
  }

  /** Nil, a value that cannot be serialised, or one that JSON carries unchanged. */
  ghost predicate Carried(arg: LuaValue) {
    arg == Nil || arg == Opaque || Faithful(arg, 0)
  }

  function ArrivesFor(arg: LuaValue): LuaValue {
    if arg == Opaque || arg == Str("BEAMMP_SERVER_INTERNAL_NIL_VALUE") then Nil else arg
  }

  lemma CarriedSurvives(rt: Runtime, arg: LuaValue)
    requires ValidRuntime(rt) && NilFree(arg) && Carried(arg)
    ensures Survives(rt, Prepare(arg), 0)
  {
    if arg != Nil && arg != Opaque {
      SurvivesIffFaithful(rt, arg, 0);
    }
  }

  lemma CarriedArrive(rt: Runtime, args: seq<LuaValue>)
    requires ValidRuntime(rt) && forall i | 0 <= i < |args| :: NilFree(args[i]) && Carried(args[i])
    ensures ArrivedArgs(rt, args) == Prepared(args)
  {
    var t := ListTable(Prepared(args));
    var ks := rt.order(t.entries);
    ArgumentsInOrder(rt, args);
    forall i | 0 <= i < |ks| ensures ArrivesAs(rt, t, ks[i], 0, t.entries[ks[i]]) {
      CarriedSurvives(rt, args[i]);
    }
    AllArrive(rt, t, ks, 0);
  }

  /** What arrives instead: functions and the like as nil, in their places, and so the string that stands for nil. */
  lemma ArgumentsArrive(rt: Runtime, args: seq<LuaValue>)
    requires ValidRuntime(rt) && forall i | 0 <= i < |args| :: NilFree(args[i]) && Carried(args[i])
    ensures Receive(Send(rt, args)) == seq(|args|, i requires 0 <= i < |args| => ArrivesFor(args[i]))
  {
    CarriedArrive(rt, args);
    SentArrives(rt, args);
    RestoredIs(args);
  }

  lemma RestoredIs(args: seq<LuaValue>)
    ensures Restored(Prepared(args)) == seq(|args|, i requires 0 <= i < |args| => ArrivesFor(args[i]))
  {
  }

  /** A whole number in the range of int is written as an integer, and any other with a fraction. */
  lemma NumberEncoded(rt: Runtime, r: real, depth: nat)
    requires depth <= 100
    ensures forall n :: Encode(rt, Num(r), depth) == Some(JInt(n)) <==> r == n as real && -2147483648 <= n <= 2147483647
    ensures Encode(rt, Num(r), depth) == Some(JDouble(r))
      <==> !(r == r.Floor as real && -2147483648.0 <= r <= 2147483647.0)
  {
    if FitsInt(r) {
      assert r.Floor as real == r;
    }
  }

  /** Tables with nothing but numbers as keys, whole or not, become arrays, and all others objects. */
  lemma {:induction false} EntriesShape(rt: Runtime, t: LuaValue, ks: seq<LuaKey>, depth: nat)
    requires t.Table?
    ensures
      var json := EncodeEntries(rt, t, ks, depth);
      || json.JNull?
      || if forall k | k in t.entries :: k.KInt? || k.KFraction? then json.JArr? else json.JObj?
    decreases |ks|
  {
    if ks != [] {
      EntriesShape(rt, t, ks[..|ks| - 1], depth);
    }
  }
}
