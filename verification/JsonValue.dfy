/** The document type of daemon/src/json.hpp. */
module JsonValue {

  datatype Json =
    | Null
    | Bool(b: bool)
    | Number(n: real)
    | String(s: string)
    | Array(items: seq<Json>)
    | Object(members: seq<Member>)

  datatype Member = Member(key: string, value: Json)

  /** `set` on the member list: replace the first member with that key where it stands, else append. */
  function SetMember(members: seq<Member>, key: string, value: Json): (r: seq<Member>)
    ensures |r| >= |members|
  {
    if members == [] then [Member(key, value)]
    else if members[0].key == key then [Member(key, value)] + members[1..]
    else [members[0]] + SetMember(members[1..], key, value)
  }

  /** Nesting depth as `parseValue` counts it: a leaf or an empty container is 1. */
  function Depth(v: Json): nat {
    match v
    case Array(items) => 1 + DepthOfItems(items)
    case Object(members) => 1 + DepthOfMembers(members)
    case _ => 1
  }

  function DepthOfItems(items: seq<Json>): nat {
    if items == [] then 0 else Max(Depth(items[0]), DepthOfItems(items[1..]))
  }

  function DepthOfMembers(members: seq<Member>): nat {
    if members == [] then 0 else Max(Depth(members[0].value), DepthOfMembers(members[1..]))
  }

  function Max(a: nat, b: nat): nat {
    if a < b then b else a
  }

  /** What `operator[]` returns. */
  function Lookup(members: seq<Member>, key: string): Json {
    if members == [] then Null
    else if members[0].key == key then members[0].value
    else Lookup(members[1..], key)
  }

  ghost function Keys(members: seq<Member>): set<string> {
    if members == [] then {} else {members[0].key} + Keys(members[1..])
  }

  ghost predicate DistinctKeys(members: seq<Member>) {
    members == [] || (members[0].key !in Keys(members[1..]) && DistinctKeys(members[1..]))
  }

  /** `set` adds its key, keeps keys distinct, is read back by `operator[]`, and disturbs no other key. */
  lemma {:induction false} SetThenLookup(members: seq<Member>, key: string, value: Json)
    ensures Keys(SetMember(members, key, value)) == Keys(members) + {key}
    ensures DistinctKeys(members) ==> DistinctKeys(SetMember(members, key, value))
    ensures Lookup(SetMember(members, key, value), key) == value
    ensures forall other :: other != key ==> Lookup(SetMember(members, key, value), other) == Lookup(members, other)
  {
    var r := SetMember(members, key, value);
    if members == [] {
      assert r[1..] == [];
    } else if members[0].key == key {
      assert r[1..] == members[1..];
    } else {
      SetThenLookup(members[1..], key, value);
      assert r[1..] == SetMember(members[1..], key, value);
    }
  }

  /** A new key goes to the end. */
  lemma {:induction false} SetNewKeyAppends(members: seq<Member>, key: string, value: Json)
    requires key !in Keys(members)
    ensures SetMember(members, key, value) == members + [Member(key, value)]
  {
    if members != [] {
      SetNewKeyAppends(members[1..], key, value);
      assert members == [members[0]] + members[1..];
    }
  }

  /** The loop of `set` over the members, updating the list it was given. */
  method SetInPlace(members: seq<Member>, key: string, value: Json) returns (r: seq<Member>)
    ensures r == SetMember(members, key, value)
  {
    var i := 0;
    while i < |members|
      invariant 0 <= i <= |members|
      invariant SetMember(members, key, value) == members[..i] + SetMember(members[i..], key, value)
    {
      if members[i].key == key {
        r := members[i := Member(key, value)];
        assert r == members[..i] + ([Member(key, value)] + members[i..][1..]);
        return;
      }
      assert members[i..][1..] == members[i + 1..];
      assert members[..i] + [members[i]] == members[..i + 1];
      i := i + 1;
    }
    assert members[i..] == [];
    assert members[..i] == members;
    r := members + [Member(key, value)];
  }
}
