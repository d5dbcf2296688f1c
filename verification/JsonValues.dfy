/** JSON values as yyjson presents them: objects are ordered member lists, so a key may repeat. */
module JsonValues {
  import opened Common
  import opened Text

  type Member = (string, Json)

  datatype Json =
    | JNull
    | JBool(b: bool)
    | JNumber(n: real)
    | JString(s: string)
    | JArray(items: seq<Json>)
    | JObject(members: seq<Member>)

  /** `yyjson_obj_get`: the value of the first member called `key`; None on a non-object. */
  function Get(v: Json, key: string): Option<Json> {
    if v.JObject? then GetMember(v.members, key) else None
  }

  function GetMember(members: seq<Member>, key: string): Option<Json> {
    if members == [] then None
    else if members[0].0 == key then Some(members[0].1)
    else GetMember(members[1..], key)
  }

  /** `GetStr`: the C string under `key`, when the first such member is a string. */
  function GetStr(v: Option<Json>, key: string): Option<string> {
    if v.None? then None
    else
      match Get(v.value, key)
      case Some(JString(s)) => Some(CStr(s))
      case _ => None
  }

  /** The first member of the object `v` called `key` has this value. */
  predicate FirstMember(v: Json, key: string, value: Json) {
    v.JObject? && exists i :: 0 <= i < |v.members| && v.members[i] == (key, value) && AbsentBefore(v.members, key, i)
  }

  predicate AbsentBefore(members: seq<Member>, key: string, i: nat) {
    i <= |members| && forall j :: 0 <= j < i ==> members[j].0 != key
  }

  lemma {:induction false} GetMemberExactly(members: seq<Member>, key: string)
    ensures match GetMember(members, key)
            case Some(value) =>
              exists i :: 0 <= i < |members| && members[i] == (key, value) && AbsentBefore(members, key, i)
            case None => AbsentBefore(members, key, |members|)
  {
    if members == [] {
    } else if members[0].0 == key {
      assert AbsentBefore(members, key, 0) && members[0] == (key, members[0].1);
    } else {
      var rest := members[1..];
      GetMemberExactly(rest, key);
      assert forall j :: 0 < j < |members| ==> members[j] == rest[j - 1];
      if GetMember(rest, key).Some? {
        var i :| 0 <= i < |rest| && rest[i] == (key, GetMember(rest, key).value) && AbsentBefore(rest, key, i);
        assert AbsentBefore(members, key, i + 1) && members[i + 1] == rest[i];
      }
    }
  }

  /** A lookup finds the first member of that name, and nothing exactly when there is none. */
  lemma GetExactly(v: Json, key: string, value: Json)
    ensures Get(v, key) == Some(value) <==> FirstMember(v, key, value)
    ensures Get(v, key) == None <==> !v.JObject? || AbsentBefore(v.members, key, |v.members|)
  {
    if v.JObject? {
      GetMemberExactly(v.members, key);
    }
  }

  /** A string lookup answers exactly when that member is a string, with its bytes up to a NUL. */
  lemma GetStrExactly(v: Json, key: string, text: string)
    ensures GetStr(Some(v), key) == Some(text) <==> exists s :: FirstMember(v, key, JString(s)) && text == CStr(s)
  {
    match Get(v, key)
    case Some(JString(s)) => GetExactly(v, key, JString(s));
    case _ =>
    forall s ensures Get(v, key) == Some(JString(s)) <==> FirstMember(v, key, JString(s)) {
      GetExactly(v, key, JString(s));
    }
  }

  /** The outside libraries the reader calls, as arbitrary total functions. */
  datatype Library = Library(
    parse: string -> Option<Json>,      // yyjson_read on a byte range
    write: Json -> Option<string>,      // yyjson_mut_write
    iso8601: string -> Option<int>,     // DuckDB's timestamp parsers, in nanoseconds
    strtod: string -> Option<real>      // strtod that must consume the whole string
  )
}
