/** JSON values as `JSON.parse` produces them, and the few JavaScript
    operations the action applies to them: truthiness, `typeof … === "object"`
    and reading a property. */
module Json {
  import opened Base

  datatype Json =
    | JNull
    | JBool(b: bool)
    | JNum(n: int)
    | JStr(s: string)
    | JArr(items: seq<Json>)
    | JObj(members: seq<Member>)

  /** One `"key": value` pair of an object, in source order. */
  datatype Member = Member(key: string, value: Json)

  /** JavaScript truthiness: `null`, `false`, `0` and `""` are falsy. */
  predicate Truthy(j: Json)
  {
    match j
    case JNull => false
    case JBool(b) => b
    case JNum(n) => n != 0
    case JStr(s) => s != ""
    case _ => true
  }

  /** `typeof j === "object"`, which holds of arrays and of `null` too. */
  predicate IsObjectType(j: Json)
  {
    j.JNull? || j.JArr? || j.JObj?
  }

  /** Index of the member that `obj[key]` reads: when a key repeats,
      `JSON.parse` keeps the last one. -1 when the key is absent. */
  function KeyIndex(members: seq<Member>, key: string): (k: int)
    ensures -1 <= k < |members|
    ensures k >= 0 ==> members[k].key == key
    ensures forall i :: k < i < |members| ==> members[i].key != key
  {
    if |members| == 0 then -1
    else if members[|members| - 1].key == key then |members| - 1
    else KeyIndex(members[..|members| - 1], key)
  }

  /** `obj[key]` on the members of an object; `None` stands for `undefined`. */
  function Lookup(members: seq<Member>, key: string): Option<Json>
  {
    var k := KeyIndex(members, key);
    if k < 0 then None else Some(members[k].value)
  }

  /** A key that no later member repeats reads the value written with it. */
  lemma LookupAt(members: seq<Member>, i: int)
    requires 0 <= i < |members|
    requires forall j :: i < j < |members| ==> members[j].key != members[i].key
    ensures Lookup(members, members[i].key) == Some(members[i].value)
  {
    var k := KeyIndex(members, members[i].key);
    assert k >= i;
  }

  /** `j[key]` on any non-null value: only objects carry named properties. */
  function Get(j: Json, key: string): Option<Json>
  {
    if j.JObj? then Lookup(j.members, key) else None
  }

  /** Truthiness of a property read, where `undefined` is falsy. */
  predicate TruthyProp(j: Json, key: string)
  {
    Get(j, key).Some? && Truthy(Get(j, key).value)
  }

  predicate AllStrings(items: seq<Json>)
  {
    forall i :: 0 <= i < |items| ==> items[i].JStr?
  }

  function Strings(items: seq<Json>): (r: seq<string>)
    requires AllStrings(items)
    ensures |r| == |items|
    ensures forall i :: 0 <= i < |items| ==> items[i] == JStr(r[i])
  {
    seq(|items|, i requires 0 <= i < |items| => items[i].s)
  }

  function FromStrings(ss: seq<string>): (r: seq<Json>)
    ensures AllStrings(r) && Strings(r) == ss
  {
    seq(|ss|, i requires 0 <= i < |ss| => JStr(ss[i]))
  }
}
