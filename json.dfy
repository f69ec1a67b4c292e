/**
 * JSON-shaped JavaScript values as the schema validator and the mod
 * library walk them: null, booleans, numbers (integers here), strings,
 * arrays and objects whose own keys keep their enumeration order.
 */
module Json {
  import opened Wrappers
  import Strings

  datatype Json =
    | Null
    | Bool(b: bool)
    | Num(n: int)
    | Str(s: string)
    | Arr(items: seq<Json>)
    | Obj(fields: seq<(string, Json)>)

  /** JavaScript `typeof`: arrays and null are "object". */
  function TypeOf(v: Json): (t: string)
    ensures t == "object" <==> v.Null? || v.Arr? || v.Obj?
    ensures t in {"object", "boolean", "number", "string"}
  {
    match v
    case Null => "object"
    case Bool(_) => "boolean"
    case Num(_) => "number"
    case Str(_) => "string"
    case Arr(_) => "object"
    case Obj(_) => "object"
  }

  /** JavaScript truthiness: false, 0, "" and null are falsy; arrays and objects are truthy. */
  predicate Truthy(v: Json) {
    match v
    case Null => false
    case Bool(b) => b
    case Num(n) => n != 0
    case Str(s) => s != ""
    case Arr(_) => true
    case Obj(_) => true
  }

  /** JavaScript `String(v)`: the text a template literal or a property key makes of a value. */
  function ToText(v: Json): string
    decreases v
  {
    match v
    case Null => "null"
    case Bool(b) => if b then "true" else "false"
    case Num(n) => Strings.IntToString(n)
    case Str(s) => s
    case Arr(xs) => Strings.Join(seq(|xs|, i requires 0 <= i < |xs| => if xs[i].Null? then "" else ToText(xs[i])), ",")
    case Obj(_) => "[object Object]"
  }

  /** The result of reading a property: a value, `undefined`, or a TypeError (reading from null). */
  datatype Access = Defined(value: Json) | Undefined | Throws {
    predicate IsTruthy() { Defined? && Truthy(value) }
  }

  /** The array index that `key` names, when it is the canonical decimal text of some i < n. */
  function IndexOfKey(key: string, n: nat): (r: Option<nat>)
    ensures r.Some? ==> r.value < n && Strings.IntToString(r.value) == key
    ensures r.None? ==> forall i :: 0 <= i < n ==> Strings.IntToString(i) != key
    ensures key == [] || !('0' <= key[0] <= '9') ==> r.None?
  {
    if n == 0 then None
    else if Strings.IntToString(n - 1) == key then Some(n - 1)
    else IndexOfKey(key, n - 1)
  }

  /** The first field named `key`. */
  function FieldLookup(fields: seq<(string, Json)>, key: string): (r: Option<Json>)
    ensures r.Some? ==> exists i :: 0 <= i < |fields| && fields[i] == (key, r.value)
    ensures r.None? ==> forall i :: 0 <= i < |fields| ==> fields[i].0 != key
  {
    if fields == [] then None
    else if fields[0].0 == key then Some(fields[0].1)
    else FieldLookup(fields[1..], key)
  }

  /** JavaScript `v[key]` for an own property (inherited members are not modelled). */
  function Get(v: Json, key: string): (r: Access)
    ensures r.Throws? <==> v.Null?
    ensures v.Obj? && r.Defined? ==> r.value < v
  {
    match v
    case Null => Throws
    case Bool(_) => Undefined
    case Num(_) => Undefined
    case Str(s) =>
      (match IndexOfKey(key, |s|)
       case Some(i) => Defined(Str([s[i]]))
       case None => if key == "length" then Defined(Num(|s|)) else Undefined)
    case Arr(xs) =>
      (match IndexOfKey(key, |xs|)
       case Some(i) => Defined(xs[i])
       case None => if key == "length" then Defined(Num(|xs|)) else Undefined)
    case Obj(fs) =>
      (match FieldLookup(fs, key)
       case Some(x) => Defined(x)
       case None => Undefined)
  }

  function IndexKeys(n: nat): (r: seq<string>)
    ensures |r| == n
    ensures forall i :: 0 <= i < n ==> r[i] == Strings.IntToString(i)
  {
    if n == 0 then [] else IndexKeys(n - 1) + [Strings.IntToString(n - 1)]
  }

  /** JavaScript `Object.keys(v)` for a value other than null. */
  function Keys(v: Json): seq<string>
    requires !v.Null?
  {
    match v
    case Bool(_) => []
    case Num(_) => []
    case Str(s) => IndexKeys(|s|)
    case Arr(xs) => IndexKeys(|xs|)
    case Obj(fs) => seq(|fs|, i requires 0 <= i < |fs| => fs[i].0)
  }

  /** JavaScript `Object.entries(v)` for an array or an object. */
  function Entries(v: Json): (r: seq<(string, Json)>)
    requires v.Arr? || v.Obj?
    ensures forall i :: 0 <= i < |r| ==> r[i].1 < v
  {
    match v
    case Arr(xs) => seq(|xs|, i requires 0 <= i < |xs| => (Strings.IntToString(i), xs[i]))
    case Obj(fs) =>
      assert forall i :: 0 <= i < |fs| ==> fs[i].1 < fs[i] < v;
      fs
  }
}
