/** The parsed JSON tree that cJSON hands to the program, and the three cJSON
    accessors the program uses. The parser itself is not part of this model:
    its outcome is an input (`Option<Json>`, None standing for a NULL root).
    Every accessor takes and returns a possibly NULL item, as cJSON's do, and
    answers NULL when given NULL. */
module CJson {
  import opened CStrings

  datatype Option<T> = None | Some(value: T)

  /** A cJSON item. A string's `valuestring` is a C string, so its text holds no NUL.
      Numbers carry an integer here; their value plays no part in the program. */
  datatype Json =
    | Null
    | False
    | True
    | Number(n: int)
    | String(text: Text)
    | Array(items: seq<Json>)
    | Object(members: seq<Member>)

  /** cJSON compares keys with strcmp, so a key, like any C string, holds no NUL. */
  datatype Member = Member(key: Text, value: Json)

  function MemberValues(ms: seq<Member>): (vs: seq<Json>)
    ensures |vs| == |ms|
    ensures forall i :: 0 <= i < |ms| ==> vs[i] == ms[i].value
  {
    if ms == [] then [] else [ms[0].value] + MemberValues(ms[1..])
  }

  /** The child list of an item: what cJSON_ArrayForEach visits and what
      cJSON_GetArrayItem indexes. An object's children are its member values. */
  function Children(j: Json): seq<Json>
  {
    match j
    case Array(items) => items
    case Object(members) => MemberValues(members)
    case _ => []
  }

  /** Index of the first member whose key is exactly `key` (a case-sensitive
      comparison), or |ms| when there is none. */
  function FindKey(ms: seq<Member>, key: string): (i: nat)
    ensures i <= |ms|
    ensures i < |ms| ==> ms[i].key == key
  {
    if ms == [] then 0
    else if ms[0].key == key then 0
    else 1 + FindKey(ms[1..], key)
  }

  /** No member before the one FindKey answers has the key. */
  lemma {:induction false} FindKeyFirst(ms: seq<Member>, key: string)
    ensures forall k :: 0 <= k < FindKey(ms, key) ==> ms[k].key != key
  {
    if ms != [] && ms[0].key != key {
      FindKeyFirst(ms[1..], key);
      assert forall k :: 1 <= k < FindKey(ms, key) ==> ms[k] == ms[1..][k - 1];
    }
  }

  /** cJSON_GetObjectItemCaseSensitive: the value of the first member named
      `key`; NULL for a NULL item, a non-object or a missing key. */
  function ObjectItem(j: Option<Json>, key: string): (r: Option<Json>)
    ensures r.Some? ==> j.Some? && j.value.Object?
  {
    if j.Some? && j.value.Object? then
      var i := FindKey(j.value.members, key);
      if i < |j.value.members| then Some(j.value.members[i].value) else None
    else
      None
  }

  /** An object's item for `key` is the value of its first member with that
      key, and there is none exactly when no member has the key. */
  lemma ObjectItemFound(j: Json, key: string)
    requires j.Object?
    ensures ObjectItem(Some(j), key).Some? <==> exists m :: m in j.members && m.key == key
    ensures ObjectItem(Some(j), key).Some? ==>
      exists i :: 0 <= i < |j.members| && j.members[i] == Member(key, ObjectItem(Some(j), key).value)
        && forall k :: 0 <= k < i ==> j.members[k].key != key
  {
    var i := FindKey(j.members, key);
    FindKeyFirst(j.members, key);
    if i == |j.members| {
      forall m | m in j.members ensures m.key != key {
        var k :| 0 <= k < |j.members| && j.members[k] == m;
      }
    } else {
      assert j.members[i] == Member(key, ObjectItem(Some(j), key).value);
    }
  }

  /** cJSON_GetArrayItem: child number `index`; NULL for a NULL item or when
      there are not that many children. */
  function ArrayItem(j: Option<Json>, index: nat): Option<Json>
  {
    if j.Some? && index < |Children(j.value)| then Some(Children(j.value)[index]) else None
  }

  /** The children cJSON_ArrayForEach visits, in order; none for NULL. */
  function ForEach(j: Option<Json>): seq<Json>
  {
    if j.Some? then Children(j.value) else []
  }
}
