/**
  The values `JSON.parse` can produce, and the two pieces of JavaScript
  semantics the service applies to them: reading a property
  (`parsedJson.recipes`) and truthiness (the `|| []` fallback).
 */
module Json {
  import opened Wrappers

  /**
    A parsed JSON value. Numbers are represented by an integer stand-in:
    only whether a number is zero matters to the application.
   */
  datatype Json =
    | JNull
    | JBool(b: bool)
    | JNumber(n: int)
    | JString(s: string)
    | JArray(items: seq<Json>)
    | JObject(members: seq<(string, Json)>)

  /**
    The value stored under `key`. `JSON.parse` keeps the LAST of several
    members with the same name, so the search runs from the end.
   */
  function Lookup(members: seq<(string, Json)>, key: string): Option<Json>
    decreases |members|
  {
    if |members| == 0 then None
    else if members[|members| - 1].0 == key then Some(members[|members| - 1].1)
    else Lookup(members[..|members| - 1], key)
  }

  /**
    `Lookup` finds a value exactly when some member has the name, and the
    value it finds belongs to the last such member.
   */
  lemma {:induction false} LookupLast(members: seq<(string, Json)>, key: string)
    ensures Lookup(members, key).None? <==> forall i | 0 <= i < |members| :: members[i].0 != key
    ensures Lookup(members, key).Some? ==> exists i | 0 <= i < |members| ::
      && members[i] == (key, Lookup(members, key).value)
      && forall k | i < k < |members| :: members[k].0 != key
    decreases |members|
  {
    if |members| > 0 && members[|members| - 1].0 != key {
      var init := members[..|members| - 1];
      LookupLast(init, key);
      if Lookup(members, key).Some? {
        var i :| 0 <= i < |init| && init[i] == (key, Lookup(init, key).value)
          && forall k | i < k < |init| :: init[k].0 != key;
        assert members[i] == init[i];
      } else {
        forall i | 0 <= i < |members| ensures members[i].0 != key {
          if i < |init| {
            assert members[i] == init[i];
          }
        }
      }
    }
  }

  /** The member at position `i` is found when no later member has the same name. */
  lemma {:induction false} LookupAt(members: seq<(string, Json)>, i: nat, key: string)
    requires i < |members| && members[i].0 == key
    requires forall k | i < k < |members| :: members[k].0 != key
    ensures Lookup(members, key) == Some(members[i].1)
    decreases |members|
  {
    if i < |members| - 1 {
      var init := members[..|members| - 1];
      assert init[i] == members[i];
      LookupAt(init, i, key);
    }
  }

  /** What a property read `j.key` yields in JavaScript. */
  datatype Access = Thrown | Undefined | Value(v: Json)

  /**
    Reading a property of `null` throws a TypeError; an object yields its
    member if there is one; anything else gives `undefined`. The last two
    hold only for names no prototype carries (not `length` or `toString`,
    say); the one name read by the service, `recipes`, is such a name.
   */
  function GetProperty(j: Json, key: string): (r: Access)
    ensures r.Thrown? <==> j.JNull?
    ensures r.Value? <==> j.JObject? && Lookup(j.members, key).Some?
    ensures r.Value? ==> Lookup(j.members, key) == Some(r.v)
  {
    match j
    case JNull => Thrown
    case JObject(members) =>
      (match Lookup(members, key)
       case None => Undefined
       case Some(v) => Value(v))
    case _ => Undefined
  }

  /** JavaScript truthiness: `null`, `false`, `0` and `""` are falsy. */
  predicate Truthy(j: Json) {
    match j
    case JNull => false
    case JBool(b) => b
    case JNumber(n) => n != 0
    case JString(s) => |s| > 0
    case JArray(_) => true
    case JObject(_) => true
  }

  /**
    `value || fallback` applied to the result of a property read: the value
    read when it is truthy, the fallback otherwise.
   */
  function OrElse(a: Access, fallback: Json): (r: Json)
    requires !a.Thrown?
    ensures (a == Value(r) && Truthy(r)) || r == fallback
    ensures a.Value? && Truthy(a.v) ==> r == a.v
    ensures a.Undefined? ==> r == fallback
  {
    if a.Value? && Truthy(a.v) then a.v else fallback
  }
}
