/**
 Results leave a Lua state as frozen values, which hold no reference into it, and are thawed in another.
 Freezing follows string keys and sequence indexes down to a fixed depth.
 */
module Freeze {
  import opened LuaValues
  import opened Wrappers

  datatype Frozen =
    | FNil
    | FBool(b: bool)
    | FInt(i: int)
    | FDouble(r: real)
    | FStr(s: string)
    | FArray(elems: seq<Frozen>)
    | FObject(fields: map<string, Frozen>)

  const MAX_DEPTH := 64

  /** Entries under other keys are skipped without a look at their value. */
  predicate Followed(k: LuaKey) {
    k.KStr? || IsIndex(k)
  }

  function FreezeNumber(r: real): Frozen {
    if FitsInt(r) then FInt(r.Floor) else FDouble(r)
  }

  /** A non-empty table with nothing but indexes becomes an array; any other keeps its string keys. */
  predicate IsSequence(keys: set<LuaKey>) {
    keys != {} && AllIndexes(keys)
  }

  function Slot(frozen: map<LuaKey, Frozen>, k: LuaKey): Frozen {
    if k in frozen then frozen[k] else FNil
  }

  /** Puts a table with the given keys together from its frozen entries. */
  ghost function Assemble(keys: set<LuaKey>, frozen: map<LuaKey, Frozen>): Frozen {
    if IsSequence(keys) then
      SomeIndex(keys);
      FArray(seq(MaxIndex(keys), i requires 0 <= i => Slot(frozen, KInt(i + 1))))
    else FObject(map name | name in Names(frozen.Keys) :: frozen[KStr(name)])
  }

  lemma SomeIndex(keys: set<LuaKey>)
    requires IsSequence(keys)
    ensures exists k :: k in keys && IsIndex(k)
  {
    var k :| k in keys;
    assert IsIndex(k);
  }

  /** Freezing a tree; None is the exception thrown for excessive depth or an unsupported type. */
  ghost function Freeze(v: LuaValue, depth: nat): Option<Frozen> {
    if depth > MAX_DEPTH then None else
    match v
    case Nil => Some(FNil)
    case Bool(b) => Some(FBool(b))
    case Num(r) => Some(FreezeNumber(r))
    case Str(s) => Some(FStr(s))
    case Opaque => None
    case Table(m) =>
      if forall k | k in m && Followed(k) :: Freeze(m[k], depth + 1).Some?
      then Some(Assemble(m.Keys, map k | k in m && Followed(k) :: Freeze(m[k], depth + 1).value))
      else None
  }

  /** A whole number in the range of int crosses as an int, and any other as a double. */
  lemma NumberFrozen(r: real, depth: nat)
    requires depth <= 64
    ensures forall n :: Freeze(Num(r), depth) == Some(FInt(n)) <==> r == n as real && -2147483648 <= n <= 2147483647
    ensures Freeze(Num(r), depth) == Some(FDouble(r))
      <==> !(r == r.Floor as real && -2147483648.0 <= r <= 2147483647.0)
  {
    if FitsInt(r) {
      assert r.Floor as real == r;
    }
  }

  function Thaw(f: Frozen): LuaValue {
    match f
    case FNil => Nil
    case FBool(b) => Bool(b)
    case FInt(i) => Num(i as real)
    case FDouble(r) => Num(r)
    case FStr(s) => Str(s)
    case FArray(a) => Table(map k | k in IndexKeys(|a|) && Thaw(a[k.i - 1]) != Nil :: Thaw(a[k.i - 1]))
    case FObject(o) => Table(map k | k in StringKeys(o.Keys) && Thaw(o[k.s]) != Nil :: Thaw(o[k.s]))
  }

  /*******************************************************************************
   *  What survives
   *******************************************************************************/

  /** Every table, at every level, has only string keys or only indexes. */
  predicate Uniform(v: LuaValue) {
    v.Table? ==>
      && (AllStrings(v.entries.Keys) || AllIndexes(v.entries.Keys))
      && forall k | k in v.entries :: Uniform(v.entries[k])
  }

  /** Sequences keep everything, all other tables their string keys only. */
  function Projection(v: LuaValue): LuaValue {
    match v
    case Table(m) =>
      if IsSequence(m.Keys) then Table(map k | k in m :: Projection(m[k]))
      else Table(map k | k in m && k.KStr? :: Projection(m[k]))
    case _ => v
  }

  ghost function FrozenEntries(m: map<LuaKey, LuaValue>, depth: nat): map<LuaKey, Frozen>
    requires forall k | k in m && Followed(k) :: Freeze(m[k], depth).Some?
  {
    map k | k in m && Followed(k) :: Freeze(m[k], depth).value
  }

  lemma {:induction false} ThawIsProjection(v: LuaValue, depth: nat)
    requires NilFree(v) && Freeze(v, depth).Some?
    ensures Thaw(Freeze(v, depth).value) == Projection(v)
    ensures v != Nil ==> Projection(v) != Nil
  {
    if v.Table? {
      var m := v.entries;
      var frozen := FrozenEntries(m, depth + 1);
      forall k | k in frozen ensures Thaw(frozen[k]) == Projection(m[k]) != Nil {
        ThawIsProjection(m[k], depth + 1);
      }
      var kept := Projection(v).entries;
      if IsSequence(m.Keys) {
        ThawSequence(m.Keys, frozen, kept);
      } else {
        ThawObject(m.Keys, frozen, kept);
      }
    }
  }

  lemma ThawSequence(keys: set<LuaKey>, frozen: map<LuaKey, Frozen>, entries: map<LuaKey, LuaValue>)
    requires IsSequence(keys) && frozen.Keys == keys && entries.Keys == keys
    requires forall k | k in keys :: Thaw(frozen[k]) == entries[k] != Nil
    ensures Thaw(Assemble(keys, frozen)) == Table(entries)
  {
    var a := Assemble(keys, frozen).elems;
    SequenceElements(keys, frozen);
    ThawArray(a, entries);
  }

  /** An array thaws to the table whose entries are its elements, the empty ones left out. */
  lemma ThawArray(a: seq<Frozen>, entries: map<LuaKey, LuaValue>)
    requires forall k | k in entries :: k in IndexKeys(|a|) && entries[k] != Nil
    requires forall k | k in IndexKeys(|a|) :: Thaw(a[k.i - 1]) == if k in entries then entries[k] else Nil
    ensures Thaw(FArray(a)) == Table(entries)
  {
    assert Thaw(FArray(a)).entries == entries;
  }

  lemma SequenceElements(keys: set<LuaKey>, frozen: map<LuaKey, Frozen>)
    requires IsSequence(keys) && frozen.Keys == keys
    ensures var a := Assemble(keys, frozen).elems;
      && keys <= IndexKeys(|a|)
      && forall k | k in IndexKeys(|a|) :: a[k.i - 1] == if k in keys then frozen[k] else FNil
  {
    SomeIndex(keys);
    var n, a := MaxIndex(keys), Assemble(keys, frozen).elems;
    forall k | k in IndexKeys(n) ensures a[k.i - 1] == Slot(frozen, k) {
      assert k == KInt(k.i - 1 + 1);
    }
    assert forall k | k in keys :: IsIndex(k) && k in IndexKeys(n);
  }

  lemma ThawObject(keys: set<LuaKey>, frozen: map<LuaKey, Frozen>, entries: map<LuaKey, LuaValue>)
    requires !IsSequence(keys)
    requires forall k :: k in entries <==> k in frozen && k.KStr?
    requires forall k | k in entries :: Thaw(frozen[k]) == entries[k] != Nil
    ensures Thaw(Assemble(keys, frozen)) == Table(entries)
  {
    var o := Assemble(keys, frozen).fields;
    forall k | k in StringKeys(o.Keys) ensures k in frozen && o[k.s] == frozen[k] {
      assert k == KStr(k.s);
    }
    assert forall k | k in entries :: k == KStr(k.s) && k in StringKeys(o.Keys);
    assert Thaw(FObject(o)).entries == entries;
  }

  lemma {:induction false} ProjectionIsIdentityIff(v: LuaValue)
    ensures Projection(v) == v <==> Uniform(v)
  {
    if v.Table? {
      var m, p := v.entries, Projection(v).entries;
      forall k | k in m ensures Projection(m[k]) == m[k] <==> Uniform(m[k]) {
        ProjectionIsIdentityIff(m[k]);
      }
      if Projection(v) == v {
        assert AllStrings(m.Keys) || AllIndexes(m.Keys);
        forall k | k in m ensures Uniform(m[k]) {
          assert p[k] == Projection(m[k]);
        }
      }
      if Uniform(v) {
        assert forall k | k in m :: k in p && p[k] == m[k];
        assert p == m;
      }
    }
  }

  /** A round trip gives the value back exactly when every table is uniform; its projection in any case. */
  lemma RoundTrip(v: LuaValue)
    requires NilFree(v) && Freeze(v, 0).Some?
    ensures Thaw(Freeze(v, 0).value) == Projection(v)
    ensures Thaw(Freeze(v, 0).value) == v <==> Uniform(v)
  {
    ThawIsProjection(v, 0);
    ProjectionIsIdentityIff(v);
  }

  lemma {:induction false} FreezeProjection(v: LuaValue, depth: nat)
    requires Freeze(v, depth).Some?
    ensures Freeze(Projection(v), depth) == Freeze(v, depth)
  {
    if v.Table? {
      var m, p := v.entries, Projection(v).entries;
      forall k | k in p
        ensures Followed(k) && Freeze(m[k], depth + 1).Some? && Freeze(p[k], depth + 1) == Freeze(m[k], depth + 1)
      {
        FreezeProjection(m[k], depth + 1);
      }
      if IsSequence(m.Keys) {
        assert p.Keys == m.Keys;
        SomeIndex(m.Keys);
      } else {
        assert !IsSequence(p.Keys);
      }
      AssembleAgrees(m.Keys, FrozenEntries(m, depth + 1), p.Keys, FrozenEntries(p, depth + 1));
    }
  }

  lemma AssembleAgrees(ks: set<LuaKey>, f: map<LuaKey, Frozen>, ks': set<LuaKey>, f': map<LuaKey, Frozen>)
    requires forall k :: k in f' <==> k in ks' && k in f
    requires forall k | k in f' :: f'[k] == f[k]
    requires IsSequence(ks) <==> IsSequence(ks')
    requires if IsSequence(ks) then ks == ks' && f.Keys == ks else forall k | k in f && k.KStr? :: k in ks'
    ensures Assemble(ks, f) == Assemble(ks', f')
  {
    if IsSequence(ks) {
      assert f == f';
    } else {
      assert Assemble(ks, f).fields == Assemble(ks', f').fields;
    }
  }

  /** What was thawed freezes to the same value again. */
  lemma FreezeThawFreeze(v: LuaValue)
    requires NilFree(v) && Freeze(v, 0).Some?
    ensures Freeze(Thaw(Freeze(v, 0).value), 0) == Freeze(v, 0)
  {
    ThawIsProjection(v, 0);
    FreezeProjection(v, 0);
  }
}
