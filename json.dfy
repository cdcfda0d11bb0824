/** JSON-compatible Python values, as the serialized collection and the AI
    responses carry them. An object keeps its members in insertion order, as
    a Python `dict` does; `Get` reads the first member with the name. */
module Json {
  import opened Wrappers

  datatype Json =
    | JNull
    | JBool(b: bool)
    | JNum(n: int)
    | JStr(s: string)
    | JArr(items: seq<Json>)
    | JObj(members: seq<(string, Json)>)

  /** `d.get(name)` on a dict; `None` for a missing member or a non-object. */
  function Get(j: Json, name: string): (r: Option<Json>)
    ensures r.Some? ==> j.JObj? && exists i :: 0 <= i < |j.members| && j.members[i] == (name, r.value)
    ensures r.None? ==> !j.JObj? || forall i :: 0 <= i < |j.members| ==> j.members[i].0 != name
  {
    if j.JObj? then Lookup(j.members, name) else None
  }

  function Lookup(members: seq<(string, Json)>, name: string): (r: Option<Json>)
    ensures r.Some? ==> exists i :: 0 <= i < |members| && members[i] == (name, r.value)
    ensures r.None? ==> forall i :: 0 <= i < |members| ==> members[i].0 != name
    decreases |members|
  {
    if |members| == 0 then None
    else if members[0].0 == name then Some(members[0].1)
    else
      var r := Lookup(members[1..], name);
      assert r.Some? ==> members[1..][0..] == members[1..];
      r
  }

  /** `name in d`. */
  predicate Has(j: Json, name: string) {
    Get(j, name).Some?
  }

  /** `d.get(name)` when it is a string. */
  function GetStr(j: Json, name: string): (r: Option<string>)
    ensures r.Some? <==> Get(j, name).Some? && Get(j, name).value.JStr?
    ensures r.Some? ==> Get(j, name).value == JStr(r.value)
  {
    match Get(j, name)
    case Some(JStr(s)) => Some(s)
    case _ => None
  }

  /** `d[name] = v` on a dict: an existing member is replaced in place,
      otherwise the member is appended. */
  function Set(members: seq<(string, Json)>, name: string, v: Json): (r: seq<(string, Json)>)
    ensures Lookup(r, name) == Some(v)
    ensures forall other :: other != name ==> Lookup(r, other) == Lookup(members, other)
    decreases |members|
  {
    if |members| == 0 then [(name, v)]
    else if members[0].0 == name then [(name, v)] + members[1..]
    else [members[0]] + Set(members[1..], name, v)
  }

  /** `str(d.get(name, default))`. A member that is not a string reads as
      the default: this model has no `str()` of other JSON values. */
  function StrOr(j: Json, name: string, default: string): string {
    match Get(j, name)
    case None => default
    case Some(JStr(s)) => s
    case Some(_) => default
  }
}
