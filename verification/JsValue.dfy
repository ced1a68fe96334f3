/** The JavaScript values the client inspects: whatever `JSON.parse` can
    produce, plus `undefined` for a property that is not there. */
module JsValue {
  import opened Wrappers

  datatype Value =
    | Undefined
    | Null
    | Bool(b: bool)
    | Num(n: real)
    | Str(s: string)
    | Arr(items: seq<Value>)
    | Obj(members: seq<(string, Value)>)

  /** ToBoolean: the values that `if (!x)` sends down its "missing" branch are
      `undefined`, `null`, `false`, `0` and the empty string. */
  predicate Truthy(v: Value)
  {
    match v
    case Undefined => false
    case Null => false
    case Bool(b) => b
    case Num(n) => n != 0.0
    case Str(s) => s != ""
    case Arr(_) => true
    case Obj(_) => true
  }

  /** The member `key` of a parsed object: `JSON.parse` keeps the last of
      several members with the same key, and an absent key reads as
      `undefined`. */
  function Lookup(members: seq<(string, Value)>, key: string): (r: Value)
    ensures (forall i :: 0 <= i < |members| ==> members[i].0 != key) ==> r == Undefined
    ensures r != Undefined ==> exists i :: 0 <= i < |members| && members[i] == (key, r)
    ensures |members| > 0 && members[|members| - 1].0 == key ==> r == members[|members| - 1].1
    ensures (exists i :: 0 <= i < |members| && members[i].0 == key) ==>
      exists i :: 0 <= i < |members| && members[i] == (key, r)
        && forall j :: i < j < |members| ==> members[j].0 != key
    decreases |members|
  {
    if members == [] then Undefined
    else if members[|members| - 1].0 == key then members[|members| - 1].1
    else
      var front := members[..|members| - 1];
      assert forall i :: 0 <= i < |front| ==> front[i] == members[i];
      Lookup(front, key)
  }

  /** The property names the client reads from parsed JSON. None of them is
      inherited from `Object.prototype`, `Array.prototype` or
      `String.prototype`, so on anything but an own member they read as
      `undefined`. */
  const DataKeys: set<string> := {"success", "error", "suggestions", "message"}

  /** Reading `v.key`: a TypeError on `undefined` and `null`, the member on an
      object, `undefined` on every other value. */
  function Get(v: Value, key: string): (r: Result<Value, string>)
    requires key in DataKeys
    ensures r.Err? <==> v == Undefined || v == Null
    ensures v.Obj? ==> r == Ok(Lookup(v.members, key))
    ensures r.Ok? && !v.Obj? ==> r.value == Undefined
  {
    match v
    case Undefined => Err("TypeError: cannot read properties of undefined")
    case Null => Err("TypeError: cannot read properties of null")
    case Obj(members) => Ok(Lookup(members, key))
    case _ => Ok(Undefined)
  }

  /** `process.env.NAME || fallback`: an unset variable and an empty one both
      give the fallback. */
  function EnvOr(env: Option<string>, fallback: string): (r: string)
    ensures r == fallback || (env.Some? && r == env.value)
    ensures r == fallback <== env.None? || env.value == ""
    ensures env.Some? && env.value != "" ==> r == env.value
  {
    if env.Some? && env.value != "" then env.value else fallback
  }
}
