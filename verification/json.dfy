/** The part of rapidjson the settings code relies on: JSON values, objects as ordered
    member lists (rapidjson keeps insertion order and allows repeated names), member
    lookup, and a document that is changed in place. */
module Json {

  datatype Json =
    | Null
    | Bool(b: bool)
    | Number(n: int)
    | Str(s: string)
    | Array(elems: seq<Json>)
    | Object(members: seq<Member>)

  datatype Member = Member(name: string, value: Json)

  /** FindMember: the index of the first member called `name`, or |ms| when there is none. */
  function FindMember(ms: seq<Member>, name: string): (i: nat)
    ensures i <= |ms|
    ensures i < |ms| ==> ms[i].name == name
    ensures forall j | 0 <= j < i :: ms[j].name != name
  {
    if ms == [] then 0
    else if ms[0].name == name then 0
    else 1 + FindMember(ms[1..], name)
  }

  /** HasMember. */
  predicate HasMember(ms: seq<Member>, name: string) {
    FindMember(ms, name) < |ms|
  }

  /** `obj[name]`: the value of the first member called `name`; rapidjson's release build
      hands back a null value for a missing one. */
  function Get(ms: seq<Member>, name: string): Json {
    if HasMember(ms, name) then ms[FindMember(ms, name)].value else Null
  }

  /** `v[name]` on any value: a member of an object, null otherwise. */
  function Field(v: Json, name: string): Json {
    if v.Object? then Get(v.members, name) else Null
  }

  /** A member is found exactly when some member has that name. */
  lemma HasMemberIff(ms: seq<Member>, name: string)
    ensures HasMember(ms, name) <==> exists i | 0 <= i < |ms| :: ms[i].name == name
  {
    if exists i | 0 <= i < |ms| :: ms[i].name == name {
      var i :| 0 <= i < |ms| && ms[i].name == name;
      assert FindMember(ms, name) <= i;
    }
  }

  /** A document: the top-level object, whose members are changed in place. */
  class Document {
    var members: seq<Member>

    constructor (ms: seq<Member>)
      ensures members == ms
    {
      members := ms;
    }

    /** ObjectEmpty. */
    function ObjectEmpty(): (r: bool)
      reads this
      ensures r <==> |members| == 0
    {
      members == []
    }
  }
}
