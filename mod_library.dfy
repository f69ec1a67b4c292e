/**
 * The indexing part of the mod library: `Shelf.flatten` and `Shelf.getKeys`
 * over JSON values, the lazily computed and cached getters of a Shelf, and
 * `Library.addMappedGetter`, which indexes an array-valued library property
 * by a mapper function or by a key.
 *
 * Object values are taken to have distinct keys, as JavaScript objects do,
 * so `Object.keys(obj)` followed by `obj[k]` walks the fields in order.
 */
module ModLibrary {
  import opened Wrappers
  import opened Json
  import Strings

  // ----- Shelf.flatten -----

  /**
   * The values `flatten` can walk without throwing or looping: it never
   * reaches null (`Object.keys(null)` throws) or a non-empty string (whose
   * one-character members are strings again, so the walk never ends).
   * Arrays are returned or collected, never walked into.
   */
  predicate Walkable(v: Json) {
    match v
    case Null => false
    case Str(s) => s == ""
    case Obj(fs) => forall i :: 0 <= i < |fs| ==> fs[i].1.Arr? || Walkable(fs[i].1)
    case _ => true
  }

  /** `fs` is a run of fields of the walkable object `parent`. */
  ghost predicate FieldsOf(fs: seq<(string, Json)>, parent: Json) {
    parent.Obj? && Walkable(parent) && forall f :: f in fs ==> f in parent.fields
  }

  /**
   * `Shelf.flatten(v, key)`, where a `key` of "" stands for an absent key
   * (both are falsy). An array is returned as it is; otherwise the result
   * concatenates, field by field, an array field's elements (when there is
   * no key or the field is named `key`) or the flattening of a non-array
   * field.
   */
  function Flatten(v: Json, key: string): (r: seq<Json>)
    requires Walkable(v)
    ensures v.Arr? ==> r == v.items
    ensures !v.Arr? && !v.Obj? ==> r == []
    decreases v, if v.Obj? then |v.fields| + 1 else 0
  {
    match v
    case Arr(xs) => xs
    case Obj(fs) => FlattenFields(fs, key, v)
    case _ => []
  }

  /** The loop of `flatten` over the fields `fs`, each contributing what it pushes. */
  function FlattenFields(fs: seq<(string, Json)>, key: string, ghost parent: Json): seq<Json>
    requires FieldsOf(fs, parent)
    decreases parent, |fs|
  {
    if fs == [] then []
    else
      var o := fs[0].1;
      assert fs[0] in parent.fields;
      (if o.Arr? then (if key == "" || fs[0].0 == key then o.items else []) else Flatten(o, key))
      + FlattenFields(fs[1..], key, parent)
  }

  lemma {:induction false} FieldsParentFree(fs: seq<(string, Json)>, key: string, p: Json, q: Json)
    requires FieldsOf(fs, p) && FieldsOf(fs, q)
    ensures FlattenFields(fs, key, p) == FlattenFields(fs, key, q)
    decreases |fs|
  {
    if fs != [] {
      FieldsParentFree(fs[1..], key, p, q);
    }
  }

  lemma {:induction false} FieldsAppend(a: seq<(string, Json)>, b: seq<(string, Json)>, key: string, p: Json)
    requires FieldsOf(a + b, p)
    ensures FieldsOf(a, p) && FieldsOf(b, p)
    ensures FlattenFields(a + b, key, p) == FlattenFields(a, key, p) + FlattenFields(b, key, p)
  {
    if a != [] {
      assert (a + b)[1..] == a[1..] + b;
      FieldsAppend(a[1..], b, key, p);
    } else {
      assert a + b == b;
    }
  }

  /** Flattening an object is flattening its first fields and then the rest, in key order. */
  lemma FlattenAppend(a: seq<(string, Json)>, b: seq<(string, Json)>, key: string)
    requires Walkable(Obj(a + b))
    ensures Walkable(Obj(a)) && Walkable(Obj(b))
    ensures Flatten(Obj(a + b), key) == Flatten(Obj(a), key) + Flatten(Obj(b), key)
  {
    var p := Obj(a + b);
    assert forall i :: 0 <= i < |a| ==> a[i] == (a + b)[i];
    assert forall i :: 0 <= i < |b| ==> b[i] == (a + b)[|a| + i];
    FieldsAppend(a, b, key, p);
    FieldsParentFree(a, key, p, Obj(a));
    FieldsParentFree(b, key, p, Obj(b));
  }

  /** With no key, a field holding an array contributes all its elements, whatever its name. */
  lemma FlattenOneArray(name: string, xs: seq<Json>, key: string)
    requires key == "" || name == key
    ensures Flatten(Obj([(name, Arr(xs))]), key) == xs
  {
    var p := Obj([(name, Arr(xs))]);
    assert [(name, Arr(xs))][1..] == [];
    assert FlattenFields([], key, p) == [];
  }

  /** With a key, an array under another name is skipped. */
  lemma FlattenSkipsOtherArray(name: string, xs: seq<Json>, key: string)
    requires key != "" && name != key
    ensures Flatten(Obj([(name, Arr(xs))]), key) == []
  {
    var p := Obj([(name, Arr(xs))]);
    assert [(name, Arr(xs))][1..] == [];
    assert FlattenFields([], key, p) == [];
  }

  /** No field of an array value named `key` is reached from `v`. */
  predicate NoArrayNamed(v: Json, key: string) {
    match v
    case Obj(fs) => forall i :: 0 <= i < |fs| ==>
      if fs[i].1.Arr? then fs[i].0 != key else NoArrayNamed(fs[i].1, key)
    case _ => true
  }

  lemma {:induction false} FieldsNoArrayNamed(fs: seq<(string, Json)>, key: string, p: Json)
    requires key != "" && FieldsOf(fs, p) && NoArrayNamed(p, key)
    ensures FlattenFields(fs, key, p) == []
    decreases p, |fs|
  {
    if fs != [] {
      var o := fs[0].1;
      assert fs[0] in p.fields;
      var i :| 0 <= i < |p.fields| && p.fields[i] == fs[0];
      if !o.Arr? {
        FlattenNoArrayNamed(o, key);
      }
      FieldsNoArrayNamed(fs[1..], key, p);
    }
  }

  /** A keyed flatten collects nothing from a non-array value where no array is stored under that key. */
  lemma {:induction false} FlattenNoArrayNamed(v: Json, key: string)
    requires key != "" && Walkable(v) && !v.Arr? && NoArrayNamed(v, key)
    ensures Flatten(v, key) == []
    decreases v, if v.Obj? then |v.fields| + 1 else 0
  {
    if v.Obj? {
      FieldsNoArrayNamed(v.fields, key, v);
    }
  }

  lemma {:induction false} FieldsKeyedWithin(fs: seq<(string, Json)>, key: string, p: Json)
    requires FieldsOf(fs, p)
    ensures multiset(FlattenFields(fs, key, p)) <= multiset(FlattenFields(fs, "", p))
    decreases p, |fs|
  {
    if fs != [] {
      var o := fs[0].1;
      assert fs[0] in p.fields;
      if !o.Arr? {
        FlattenKeyedWithin(o, key);
      }
      FieldsKeyedWithin(fs[1..], key, p);
    }
  }

  /** Everything a keyed flatten collects is collected, as often, by the flatten without a key. */
  lemma {:induction false} FlattenKeyedWithin(v: Json, key: string)
    requires Walkable(v)
    ensures multiset(Flatten(v, key)) <= multiset(Flatten(v, ""))
    decreases v, if v.Obj? then |v.fields| + 1 else 0
  {
    if v.Obj? {
      FieldsKeyedWithin(v.fields, key, v);
    }
  }

  // ----- Shelf.getKeys -----

  function Max0(d: int): nat { if d < 0 then 0 else d }

  /** The value under own key i of a non-null value: a field's value, an element or a one-character string. */
  function Child(v: Json, i: nat): (c: Json)
    requires !v.Null? && i < |Keys(v)|
    ensures v.Obj? ==> c == v.fields[i].1
  {
    match v
    case Obj(fs) => fs[i].1
    case Arr(xs) => xs[i]
    case Str(s) => Str([s[i]])
    case _ => Null
  }

  /** `getKeys(v, depth)` reaches no null whose keys it would list (`Object.keys(null)` throws). */
  predicate KeysReachable(v: Json, depth: int)
    decreases Max0(depth), 1, 0
  {
    depth < 1 || v.Arr? || (!v.Null? && ChildrenReachable(v, depth, 0))
  }

  predicate ChildrenReachable(v: Json, d: int, i: nat)
    requires !v.Null?
    decreases Max0(d), 0, |Keys(v)| - i
  {
    i >= |Keys(v)| ||
    ((d - 1 < 1 || KeysReachable(Child(v, i), d - 1)) && ChildrenReachable(v, d - 1, i + 1))
  }

  /**
   * `Shelf.getKeys(v, depth)`: nothing below depth 1 or for an array;
   * otherwise each own key followed by its value's keys, where the depth
   * drops by one for every sibling visited (`--depth`).
   */
  function GetKeys(v: Json, depth: int): (r: seq<string>)
    requires KeysReachable(v, depth)
    ensures depth < 1 || v.Arr? ==> r == []
    decreases Max0(depth), 1, 0
  {
    if depth < 1 || v.Arr? then [] else GetKeysFrom(v, depth, 0)
  }

  /** The loop of `getKeys` from the i-th own key on, with `d` the depth before its decrement. */
  function GetKeysFrom(v: Json, d: int, i: nat): seq<string>
    requires !v.Null? && i <= |Keys(v)| && ChildrenReachable(v, d, i)
    decreases Max0(d), 0, |Keys(v)| - i
  {
    if i == |Keys(v)| then []
    else [Keys(v)[i]] + (if d - 1 >= 1 then GetKeys(Child(v, i), d - 1) else []) + GetKeysFrom(v, d - 1, i + 1)
  }

  lemma {:induction false} ShallowReachable(v: Json, d: int, i: nat)
    requires !v.Null? && d <= 1
    ensures ChildrenReachable(v, d, i)
    decreases |Keys(v)| - i
  {
    if i < |Keys(v)| {
      ShallowReachable(v, d - 1, i + 1);
    }
  }

  lemma {:induction false} GetKeysFromShallow(v: Json, d: int, i: nat)
    requires !v.Null? && i <= |Keys(v)| && d <= 1
    ensures ChildrenReachable(v, d, i) && GetKeysFrom(v, d, i) == Keys(v)[i..]
    decreases |Keys(v)| - i
  {
    ShallowReachable(v, d, i);
    var ks := Keys(v);
    if i < |ks| {
      GetKeysFromShallow(v, d - 1, i + 1);
      var rest := GetKeysFrom(v, d - 1, i + 1);
      assert rest == ks[i + 1..];
      assert GetKeysFrom(v, d, i) == [ks[i]] + [] + rest;
      assert ks[i..] == [ks[i]] + ks[i + 1..];
    } else {
      assert ks[i..] == [];
    }
  }

  /** At depth 1 the keys are exactly the value's own keys. */
  lemma GetKeysDepthOne(v: Json)
    requires !v.Null? && !v.Arr?
    ensures KeysReachable(v, 1) && GetKeys(v, 1) == Keys(v)
  {
    GetKeysFromShallow(v, 1, 0);
  }

  /** At the default depth 2, only the first key's value contributes its own keys; the other keys come alone. */
  lemma GetKeysDepthTwo(fs: seq<(string, Json)>)
    requires |fs| >= 1 && !fs[0].1.Null?
    ensures KeysReachable(Obj(fs), 2)
    ensures GetKeys(Obj(fs), 2)
      == [fs[0].0] + (if fs[0].1.Arr? then [] else Keys(fs[0].1)) + Keys(Obj(fs))[1..]
  {
    var v := Obj(fs);
    GetKeysFromShallow(v, 1, 1);
    if !fs[0].1.Arr? {
      GetKeysDepthOne(fs[0].1);
    }
    assert Child(v, 0) == fs[0].1;
    assert ChildrenReachable(v, 2, 0);
  }

  lemma {:induction false} OwnKeysListedFrom(v: Json, d: int, i: nat, j: nat)
    requires !v.Null? && i <= j < |Keys(v)| && ChildrenReachable(v, d, i)
    ensures Keys(v)[j] in GetKeysFrom(v, d, i)
    decreases j - i
  {
    if i < j {
      OwnKeysListedFrom(v, d - 1, i + 1, j);
    }
  }

  /** From depth 1 on, every own key of a non-array value is listed. */
  lemma OwnKeysListed(v: Json, depth: int, j: nat)
    requires KeysReachable(v, depth) && depth >= 1 && !v.Arr? && j < |Keys(v)|
    ensures Keys(v)[j] in GetKeys(v, depth)
  {
    OwnKeysListedFrom(v, depth, 0, j);
  }

  // ----- Shelf -----

  /** Names every object has: Object.prototype's members. */
  const OBJECT_MEMBERS: set<string> :=
    {"constructor", "toString", "toLocaleString", "valueOf", "hasOwnProperty", "isPrototypeOf",
     "propertyIsEnumerable", "__proto__", "__defineGetter__", "__defineSetter__",
     "__lookupGetter__", "__lookupSetter__"}

  /** Names a new Shelf already has (`key in this`): its `data` and `_any` fields, the `any` getter and Object's members. */
  const SHELF_MEMBERS: set<string> := {"data", "_any", "any"} + OBJECT_MEMBERS

  /**
   * The getters the constructor defines for `keys`, added to `defined`: a
   * key naming a member or an earlier getter is skipped; otherwise the
   * getter reads `data[key]` directly when that is truthy (true) and
   * searches `data` for the key otherwise (false).
   */
  function Getters(data: Json, keys: seq<string>, defined: map<string, bool>): (g: map<string, bool>)
    requires !data.Null? || forall i :: 0 <= i < |keys| ==> keys[i] in SHELF_MEMBERS || keys[i] in defined
    ensures defined.Keys <= g.Keys
    ensures forall k :: k in g ==> k in defined || (k in keys && k !in SHELF_MEMBERS)
    ensures forall k :: k in keys && k !in SHELF_MEMBERS ==> k in g
    ensures forall k :: k in g && k !in defined ==> g[k] == Get(data, k).IsTruthy()
    ensures forall k :: k in defined ==> g[k] == defined[k]
  {
    if keys == [] then defined
    else
      var k := keys[0];
      var next := if k in SHELF_MEMBERS || k in defined then defined else defined[k := Get(data, k).IsTruthy()];
      Getters(data, keys[1..], next)
  }

  class Shelf {
    /** The indexed value. */
    var data: Json
    /** The getters defined by the constructor: key ↦ whether it reads `data[key]` directly. */
    var getters: map<string, bool>
    /** The `_key` fields the getters have written. */
    var cache: map<string, seq<Json>>
    /** The `_any` field: null until `any` is read. */
    var anyCache: Option<seq<Json>>

    /** What the getter for `key` flattens: `data[key]` when that was truthy, `data` otherwise. */
    function Target(key: string): Json
      reads this
      requires key in getters && !data.Null?
    {
      if getters[key] && Get(data, key).Defined? then Get(data, key).value else data
    }

    /** The value the getter for `key` yields. */
    function Computed(key: string): seq<Json>
      reads this
      requires key in getters && !data.Null? && Walkable(Target(key))
    {
      if getters[key] then Flatten(Target(key), "") else Flatten(data, key)
    }

    /** Every cached value is what its getter computes, and `_any` is the flattening of `data`. */
    ghost predicate Valid()
      reads this
    {
      (forall k :: k in getters && getters[k] ==> Get(data, k).IsTruthy()) &&
      (forall k :: k in cache ==> k in getters && !data.Null? && Walkable(Target(k)) && cache[k] == Computed(k)) &&
      (anyCache.Some? ==> Walkable(data) && anyCache.value == Flatten(data, ""))
    }

    /** `new Shelf(obj, keys)`: a getter for every key that does not already name a member. */
    constructor (obj: Json, keys: seq<string>)
      requires !obj.Null? || forall i :: 0 <= i < |keys| ==> keys[i] in SHELF_MEMBERS
      ensures Valid()
      ensures data == obj && cache == map[] && anyCache == None
      ensures getters == Getters(obj, keys, map[])
    {
      data := obj;
      cache := map[];
      anyCache := None;
      var defined: map<string, bool> := map[];
      var i := 0;
      while i < |keys|
        invariant 0 <= i <= |keys|
        invariant Getters(obj, keys, map[]) == Getters(obj, keys[i..], defined)
        invariant forall k :: k in defined ==> defined[k] == Get(obj, k).IsTruthy()
      {
        var k := keys[i];
        assert keys[i..][1..] == keys[i + 1..];
        if k !in SHELF_MEMBERS && k !in defined {
          defined := defined[k := Get(obj, k).IsTruthy()];
        }
        i := i + 1;
      }
      getters := defined;
    }

    /**
     * Reading the getter for `key`: `flatten(data[key])` when `data[key]`
     * was truthy, else `flatten(data, key)`; computed on the first read,
     * cached in `_key` and returned from there afterwards.
     */
    method Read(key: string) returns (r: seq<Json>)
      requires Valid() && key in getters && !data.Null? && Walkable(Target(key))
      modifies this`cache
      ensures Valid()
      ensures r == (if getters[key] then Flatten(Get(data, key).value, "") else Flatten(data, key))
      ensures cache == old(cache)[key := r]
    {
      if key in cache {
        r := cache[key];
      } else if getters[key] {
        r := Flatten(Get(data, key).value, "");
        cache := cache[key := r];
      } else {
        r := Flatten(data, key);
        cache := cache[key := r];
      }
    }

    /** The `any` getter: `flatten(data)`, computed once and kept in `_any`. */
    method Any() returns (r: seq<Json>)
      requires Valid() && Walkable(data)
      modifies this`anyCache
      ensures Valid()
      ensures r == Flatten(data, "") && anyCache == Some(r)
    {
      if anyCache.None? {
        anyCache := Some(Flatten(data, ""));
      }
      r := anyCache.value;
    }
  }

  // ----- Library.addMappedGetter -----

  /** What a library property holds: a JSON value, or an object that is not an array (a Shelf, a Map, a function). */
  datatype Held = Value(v: Json) | Opaque

  /** The `mapper` of a getter definition: absent (or falsy), a function, or some other truthy value. */
  datatype MapperField = NoMapper | MapperFn(f: Json -> Json) | NotAFunction

  /** A mapped-getter definition; "" stands for an absent `property`, `name` or `id`. */
  datatype GetterDef = GetterDef(property: string, name: string, mapper: MapperField, key: Option<Json>, id: string)

  /** The ids of the Library's data Map: a definition's id, or a fresh Symbol. */
  datatype MapId = Named(name: string) | Symbol(serial: nat)

  /** What addMappedGetter throws: one of its messages, or a TypeError. */
  datatype LibError = Thrown(message: string) | TypeError

  const PREFIX := "cannot add mapped getter: "

  /** The key an item is stored under: `mapper(item)` or `item[key]` (reading from null throws). */
  function MappedKey(mapper: MapperField, key: string, item: Json): (k: Access)
    ensures mapper.MapperFn? ==> k == Defined(mapper.f(item))
    ensures !mapper.MapperFn? ==> k == Get(item, key)
  {
    if mapper.MapperFn? then Defined(mapper.f(item)) else Get(item, key)
  }

  /** The Map the indexing loop builds from `items`, or None when reading some item's key throws. */
  function Indexed(mapper: MapperField, key: string, items: seq<Json>): Option<map<Access, Json>>
  {
    if items == [] then Some(map[])
    else
      var last := items[|items| - 1];
      var k := MappedKey(mapper, key, last);
      match Indexed(mapper, key, items[..|items| - 1])
      case None => None
      case Some(m) => if k.Throws? then None else Some(m[k := last])
  }

  /** The last item whose mapped key is `q`: the lookup's answer. */
  predicate IsLastWith(mapper: MapperField, key: string, items: seq<Json>, q: Access, j: int) {
    0 <= j < |items| && MappedKey(mapper, key, items[j]) == q &&
    forall k :: j < k < |items| ==> MappedKey(mapper, key, items[k]) != q
  }

  /** The index of the last item whose mapped key is `q`, or -1 when there is none. */
  function LastIndex(mapper: MapperField, key: string, items: seq<Json>, q: Access): (j: int)
    ensures -1 <= j < |items|
    ensures j >= 0 ==> IsLastWith(mapper, key, items, q, j)
    ensures j < 0 ==> forall k :: 0 <= k < |items| ==> MappedKey(mapper, key, items[k]) != q
  {
    if items == [] then -1
    else if MappedKey(mapper, key, items[|items| - 1]) == q then |items| - 1
    else
      var front := items[..|items| - 1];
      assert forall k :: 0 <= k < |front| ==> front[k] == items[k];
      LastIndex(mapper, key, front, q)
  }

  /**
   * The built Map answers a query with the last item whose mapped key
   * equals it, and has no answer when no item maps to it.
   */
  lemma {:induction false} IndexedLast(mapper: MapperField, key: string, items: seq<Json>, q: Access)
    requires Indexed(mapper, key, items).Some?
    ensures var m := Indexed(mapper, key, items).value; var j := LastIndex(mapper, key, items, q);
      (q in m <==> j >= 0) && (q in m ==> m[q] == items[j])
  {
    if items != [] {
      var n := |items| - 1;
      var front := items[..n];
      IndexedLast(mapper, key, front, q);
      var m := Indexed(mapper, key, items).value;
      assert m == Indexed(mapper, key, front).value[MappedKey(mapper, key, items[n]) := items[n]];
      var j := LastIndex(mapper, key, front, q);
      if j >= 0 { assert front[j] == items[j]; }
    }
  }

  /** The check `addMappedGetter` makes before indexing, given what `this[def.property]` holds. */
  function Precheck(def: GetterDef, shelf: Option<Held>): (e: Option<LibError>)
    ensures e.None? ==> def.property != "" && def.name != "" && shelf.Some? && shelf.value.Value? && shelf.value.v.Arr?
    ensures e.None? ==> def.mapper.MapperFn? || (def.mapper.NoMapper? && def.key.Some? && def.key.value.Str?)
  {
    if !(def.property != "" && def.name != "" && (!def.mapper.NoMapper? || (def.key.Some? && Truthy(def.key.value)))) then
      Some(Thrown(PREFIX + "getter must have a specified name, property and either mapper or key"))
    else if shelf.None? || (shelf.value.Value? && !Truthy(shelf.value.v)) then
      Some(Thrown(PREFIX + "property \"" + def.property + "\" doesn't exist"))
    else if !(shelf.value.Value? && shelf.value.v.Arr?) then
      Some(Thrown(PREFIX + "item \"" + def.property + "\" is not iterable"))
    else if def.mapper.NotAFunction? then
      Some(Thrown(PREFIX + "definition of \"mapper\" is not a function"))
    else if def.mapper.MapperFn? then None
    else if def.key.Some? && def.key.value.Str? then None
    else
      Some(Thrown(PREFIX + "key: \"" + (if def.key.Some? then ToText(def.key.value) else "undefined")
                  + "\" cannot be used to map items because it's not a string"))
  }

  /** The Map every definition indexes by: its mapper, or else its string key. */
  function DefKey(def: GetterDef): string {
    if def.key.Some? && def.key.value.Str? then def.key.value.s else ""
  }

  class Library {
    /** The named properties `Library.from` defined: each yields the value loaded for it. */
    var props: map<string, Held>
    /** The `data` Map's entries written by addMappedGetter. */
    var data: map<MapId, map<Access, Json>>
    /** The lookup functions addMappedGetter defined, by name: each answers from its Map. */
    var lookups: map<string, map<Access, Json>>
    /** How many Symbols have been made: the next `Symbol()` is distinct from every earlier one. */
    var symbols: nat

    ghost predicate Valid()
      reads this
    {
      forall id :: id in data && id.Symbol? ==> id.serial < symbols
    }

    /** A library whose `from` has defined the properties `props` (loading them is not modelled). */
    constructor (props: map<string, Held>)
      ensures Valid() && this.props == props && data == map[] && lookups == map[] && symbols == 0
    {
      this.props := props;
      data := map[];
      lookups := map[];
      symbols := 0;
    }

    /** `this[name]`: a loaded property, a defined lookup, one of the library's own members, or undefined. */
    function Property(name: string): Option<Held>
      reads this
    {
      if name in props then Some(props[name])
      else if name in lookups || name in {"data", "addMappedGetter"} || name in OBJECT_MEMBERS then Some(Opaque)
      else None
    }

    /** The mapped lookup `name(q)`: the item stored under q, or undefined. */
    function Lookup(name: string, q: Access): Option<Json>
      reads this
      requires name in lookups
    {
      if q in lookups[name] then Some(lookups[name][q]) else None
    }

    /** The loop that fills the Map, one item at a time. */
    static method Index(mapper: MapperField, key: string, items: seq<Json>) returns (m: map<Access, Json>, ok: bool)
      ensures ok <==> Indexed(mapper, key, items).Some?
      ensures ok ==> m == Indexed(mapper, key, items).value
    {
      m := map[];
      ok := true;
      var i := 0;
      while i < |items| && ok
        invariant 0 <= i <= |items|
        invariant ok <==> Indexed(mapper, key, items[..i]).Some?
        invariant ok ==> m == Indexed(mapper, key, items[..i]).value
        invariant !ok ==> Indexed(mapper, key, items).None?
      {
        assert items[..i + 1][..i] == items[..i];
        var k := MappedKey(mapper, key, items[i]);
        if k.Throws? {
          ok := false;
          IndexedNoneGrows(mapper, key, items, i + 1);
        } else {
          m := m[k := items[i]];
        }
        i := i + 1;
      }
      if ok {
        assert items[..i] == items;
      }
    }

    /**
     * `addMappedGetter(def)`: after the checks, the Map from each item's
     * mapped key to the last item with that key is stored in `data` under
     * `def.id` or a fresh Symbol, and a lookup named `def.name` is defined
     * over it. Defining a name the library already has (a non-configurable
     * property) throws a TypeError after the Map has been stored.
     */
    method AddMappedGetter(def: GetterDef) returns (err: Option<LibError>)
      requires Valid() && def.name != "data"
      modifies this`data, this`lookups, this`symbols
      ensures Valid()
      ensures var pre := Precheck(def, old(Property(def.property)));
        pre.Some? ==> err == pre && unchanged(this)
      ensures var pre := Precheck(def, old(Property(def.property)));
        pre.None? ==>
          var built := Indexed(def.mapper, DefKey(def), old(Property(def.property)).value.v.items);
          if built.None? then err == Some(TypeError) && unchanged(this)
          else
            var id := if def.id != "" then Named(def.id) else Symbol(old(symbols));
            data == old(data)[id := built.value] &&
            symbols == (if def.id != "" then old(symbols) else old(symbols) + 1) &&
            if def.name in old(props) || def.name in old(lookups) then
              err == Some(TypeError) && lookups == old(lookups)
            else
              err == None && lookups == old(lookups)[def.name := built.value]
    {
      var shelf := Property(def.property);
      err := Precheck(def, shelf);
      if err.Some? {
        return;
      }
      var m, ok := Index(def.mapper, DefKey(def), shelf.value.v.items);
      if !ok {
        err := Some(TypeError);
        return;
      }
      var id: MapId;
      if def.id != "" {
        id := Named(def.id);
      } else {
        id := Symbol(symbols);
        symbols := symbols + 1;
      }
      data := data[id := m];
      if def.name in props || def.name in lookups {
        err := Some(TypeError);
      } else {
        lookups := lookups[def.name := m];
      }
    }
  }

  lemma {:induction false} IndexedNoneGrows(mapper: MapperField, key: string, items: seq<Json>, n: nat)
    requires n <= |items| && Indexed(mapper, key, items[..n]).None?
    ensures Indexed(mapper, key, items).None?
    decreases |items| - n
  {
    if n < |items| {
      assert items[..n + 1][..n] == items[..n];
      IndexedNoneGrows(mapper, key, items, n + 1);
    } else {
      assert items[..n] == items;
    }
  }

  /**
   * After a successful addMappedGetter, the new lookup answers each query
   * with the last item of the indexed array whose mapped key equals it.
   */
  lemma MappedLookupIsLast(mapper: MapperField, key: string, items: seq<Json>, q: Access)
    requires Indexed(mapper, key, items).Some? && q in Indexed(mapper, key, items).value
    ensures exists j :: IsLastWith(mapper, key, items, q, j) && Indexed(mapper, key, items).value[q] == items[j]
  {
    IndexedLast(mapper, key, items, q);
    var j := LastIndex(mapper, key, items, q);
    assert IsLastWith(mapper, key, items, q, j);
  }
}
