/**
 Values inside a Lua state. A tree-shaped value is a LuaValue; where tables may be shared or refer to
 themselves, a heap maps references to tables.
 */
module LuaValues {

  /** A table key: a string, a whole number, another number, or anything else (booleans, tables, functions). */
  datatype LuaKey = KStr(s: string) | KInt(i: int) | KFraction(r: real) | KOther(tag: int)

  datatype LuaValue =
    | Nil
    | Bool(b: bool)
    | Num(r: real)
    | Str(s: string)
    | Table(entries: map<LuaKey, LuaValue>)
    | Opaque

  const INT_MIN := -0x8000_0000
  const INT_MAX := 0x7fff_ffff

  /** Numbers that cross a boundary as a C++ int; all others cross as a double. */
  predicate FitsInt(r: real) {
    r == r.Floor as real && INT_MIN <= r.Floor <= INT_MAX
  }

  /** Storing nil in a Lua table removes the entry, so no table holds one. */
  predicate NilFree(v: LuaValue) {
    v.Table? ==> forall k | k in v.entries :: v.entries[k] != Nil && NilFree(v.entries[k])
  }

  /** A key that numbers an element of a sequence. */
  predicate IsIndex(k: LuaKey) {
    k.KInt? && k.i >= 1
  }

  predicate AllStrings(keys: set<LuaKey>) {
    forall k | k in keys :: k.KStr?
  }

  predicate AllIndexes(keys: set<LuaKey>) {
    forall k | k in keys :: IsIndex(k)
  }

  ghost predicate IsMaxIndex(keys: set<LuaKey>, n: int) {
    n >= 1 && KInt(n) in keys && forall k | k in keys && IsIndex(k) :: k.i <= n
  }

  lemma {:induction false} MaxIndexExists(keys: set<LuaKey>)
    requires exists k :: k in keys && IsIndex(k)
    ensures exists n :: IsMaxIndex(keys, n)
  {
    var k :| k in keys && IsIndex(k);
    if IsMaxIndex(keys, k.i) {
    } else {
      var rest := keys - {k};
      MaxIndexExists(rest);
      var n :| IsMaxIndex(rest, n);
      assert IsMaxIndex(keys, n);
    }
  }

  ghost function MaxIndex(keys: set<LuaKey>): (n: nat)
    requires exists k :: k in keys && IsIndex(k)
    ensures IsMaxIndex(keys, n)
  {
    MaxIndexExists(keys);
    var n :| IsMaxIndex(keys, n);
    n
  }

  /** The keys 1 to n. */
  function IndexKeys(n: nat): (keys: set<LuaKey>)
    ensures forall k :: k in keys <==> k.KInt? && 1 <= k.i <= n
  {
    set i | 1 <= i <= n :: KInt(i)
  }

  function StringKeys(names: set<string>): (keys: set<LuaKey>)
    ensures forall k :: k in keys <==> k.KStr? && k.s in names
  {
    set name | name in names :: KStr(name)
  }

  function Names(keys: set<LuaKey>): (names: set<string>)
    ensures forall name :: name in names <==> KStr(name) in keys
  {
    set k | k in keys && k.KStr? :: k.s
  }

  lemma {:induction false} IndexKeysSize(n: nat)
    ensures |IndexKeys(n)| == n
  {
    if n > 0 {
      IndexKeysSize(n - 1);
      assert IndexKeys(n) == IndexKeys(n - 1) + {KInt(n)};
    }
  }
}
