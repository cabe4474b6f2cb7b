/** JSON values as the server receives them from a language model or sends
    them back in a reply. Numbers are integers; an object is its members in
    the order the text gives them. */
module JsonValue {
  import opened Wrappers

  datatype Json =
    | Null
    | Boolean(b: bool)
    | Number(n: int)
    | Str(s: string)
    | Arr(items: seq<Json>)
    | Obj(members: seq<(string, Json)>)

  /** The keys of an object's members, in order. */
  function Keys(members: seq<(string, Json)>): (r: seq<string>)
    ensures |r| == |members|
    ensures forall i | 0 <= i < |members| :: r[i] == members[i].0
  {
    if members == [] then [] else [members[0].0] + Keys(members[1..])
  }

  /** No key occurs twice, as in every JavaScript object. */
  predicate DistinctKeys(members: seq<(string, Json)>) {
    forall i, j | 0 <= i < j < |members| :: members[i].0 != members[j].0
  }

  /** `obj[key]` for an own member: `None` is `undefined`. Text with a
      repeated key keeps the last of its members, as `JSON.parse` does. */
  function Get(members: seq<(string, Json)>, key: string): (r: Option<Json>)
    ensures r.None? <==> key !in Keys(members)
    ensures r.Some? ==>
              exists i | 0 <= i < |members| ::
                members[i] == (key, r.value) && forall j | i < j < |members| :: members[j].0 != key
    decreases |members|
  {
    if members == [] then None
    else
      var n := |members| - 1;
      if members[n].0 == key then Some(members[n].1)
      else
        var r := Get(members[..n], key);
        assert Keys(members) == Keys(members[..n]) + [members[n].0];
        r
  }

  /** In an object without repeated keys, the member's key finds its value. */
  lemma {:induction false} GetMember(members: seq<(string, Json)>, i: nat)
    requires DistinctKeys(members) && i < |members|
    ensures Get(members, members[i].0) == Some(members[i].1)
    decreases |members|
  {
    var n := |members| - 1;
    if i < n {
      assert members[n].0 != members[i].0;
      GetMember(members[..n], i);
    }
  }
}
