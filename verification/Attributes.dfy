/** The two JSON attribute bags of a row: resource metadata and everything else the event carries. */
module Attributes {
  import opened Common
  import opened FirstOccurrence
  import opened JsonValues
  import opened Text

  //------------------------------------------------------------------ which field goes where

  datatype ResourceKeyMapping = ResourceKeyMapping(splunkKey: string, otlpKey: string)

  const RESOURCE_KEYS: seq<ResourceKeyMapping> := [
    ResourceKeyMapping("host", "host.name"),
    ResourceKeyMapping("source", "com.splunk.source"),
    ResourceKeyMapping("sourcetype", "com.splunk.sourcetype"),
    ResourceKeyMapping("index", "com.splunk.index"),
    ResourceKeyMapping("splunk_server", "com.splunk.server")
  ]

  const NOISE_KEYS: seq<string> := ["linecount", "punct", "eventtype"]

  predicate IsResourceKey(key: string) {
    exists i :: 0 <= i < |RESOURCE_KEYS| && RESOURCE_KEYS[i].splunkKey == key
  }

  predicate IsInternalField(key: string) {
    (key != [] && key[0] == '_') || IsResourceKey(key) || key in NOISE_KEYS
  }

  //------------------------------------------------------------------ resource attributes

  /** The resource attributes under the given mappings, in mapping order. */
  function ResourceMembers(event: Json, keys: seq<ResourceKeyMapping>): seq<Member> {
    if keys == [] then []
    else
      var front, last := keys[..|keys| - 1], keys[|keys| - 1];
      ResourceMembers(event, front) +
      match GetStr(Some(event), last.splunkKey)
      case Some(v) => [(last.otlpKey, JString(v))]
      case None => []
  }

  /** A non-empty member list as text; "" when there is nothing to write or the writer fails. */
  function WriteObject(lib: Library, members: seq<Member>): string {
    if members == [] then ""
    else match lib.write(JObject(members)) case Some(json) => json case None => ""
  }

  method BuildResourceAttributes(lib: Library, event: Json, keys: seq<ResourceKeyMapping>) returns (text: string)
    ensures text == WriteObject(lib, ResourceMembers(event, keys))
  {
    var root: seq<Member> := [];
    var any := false;
    var i := 0;
    while i < |keys|
      invariant 0 <= i <= |keys|
      invariant root == ResourceMembers(event, keys[..i])
      invariant any <==> root != []
    {
      assert keys[..i + 1][..i] == keys[..i];
      var value := GetStr(Some(event), keys[i].splunkKey);
      if value.Some? {
        root := root + [(keys[i].otlpKey, JString(value.value))];
        any := true;
      }
      i := i + 1;
    }
    assert keys[..i] == keys;
    if !any { return ""; }
    var json := lib.write(JObject(root));
    text := if json.Some? then json.value else "";
  }

  /** The field `key` of `event` is a string, and `value` is that string. */
  predicate FieldIs(event: Json, key: string, value: Json) {
    match GetStr(Some(event), key)
    case Some(v) => value == JString(v)
    case None => false
  }

  /** Some mapping promotes a string field of the event to the attribute `name` with this value. */
  predicate Promotes(event: Json, keys: seq<ResourceKeyMapping>, name: string, value: Json) {
    exists i :: 0 <= i < |keys| && keys[i].otlpKey == name && FieldIs(event, keys[i].splunkKey, value)
  }

  lemma PromotesOneMore(event: Json, front: seq<ResourceKeyMapping>, last: ResourceKeyMapping, name: string, value: Json)
    ensures Promotes(event, front + [last], name, value) <==>
            Promotes(event, front, name, value) || (last.otlpKey == name && FieldIs(event, last.splunkKey, value))
  {
    var all := front + [last];
    assert forall i :: 0 <= i < |front| ==> all[i] == front[i];
    assert all[|front|] == last;
  }

  /** A resource attribute is present exactly when its Splunk field is a string, with that value. */
  lemma {:induction false} ResourceMembersExact(event: Json, keys: seq<ResourceKeyMapping>, name: string, value: Json)
    ensures (name, value) in ResourceMembers(event, keys) <==> Promotes(event, keys, name, value)
  {
    if keys == [] {
    } else {
      var front, last := keys[..|keys| - 1], keys[|keys| - 1];
      ResourceMembersExact(event, front, name, value);
      assert keys == front + [last];
      PromotesOneMore(event, front, last, name, value);
    }
  }

  //------------------------------------------------------------------ log attributes

  function MemberKey(m: Member): string { m.0 }

  /** The members of `source` that may be copied, in order, under their C-string keys. */
  function Copyable(source: Option<Json>): seq<Member> {
    if source.Some? && source.value.JObject? then CopyableMembers(source.value.members) else []
  }

  function CopyableMembers(members: seq<Member>): seq<Member> {
    if members == [] then []
    else
      var front, last := members[..|members| - 1], members[|members| - 1];
      CopyableMembers(front) + if IsInternalField(CStr(last.0)) then [] else [(CStr(last.0), last.1)]
  }

  /** The merged log attributes: first occurrence wins, and the event comes before its `_raw`. */
  function LogMembers(event: Json, raw: Option<Json>): seq<Member> {
    Dedup(MemberKey, Copyable(Some(event)) + Copyable(raw))
  }

  /** A mutable JSON object under construction. */
  class MutableObject {
    var members: seq<Member>

    constructor ()
      ensures members == []
    {
      members := [];
    }

    predicate Contains(key: string)
      reads this
    {
      HasKey(MemberKey, members, key)
    }

    method Add(key: string, value: Json)
      modifies this
      ensures members == old(members) + [(key, value)]
    {
      members := members + [(key, value)];
    }
  }

  /** Copies the fields of `source` into `root`; `before` is everything offered to `root` so far. */
  method CopyNonInternalFields(root: MutableObject, source: Option<Json>, ghost before: seq<Member>)
    returns (any: bool)
    requires root.members == Dedup(MemberKey, before)
    modifies root
    ensures root.members == Dedup(MemberKey, before + Copyable(source))
    ensures any <==> root.members != old(root.members)
    ensures old(root.members) <= root.members
  {
    any := false;
    if source.None? || !source.value.JObject? {
      assert before + Copyable(source) == before;
      return;
    }
    var members := source.value.members;
    var idx := 0;
    assert members[..0] == [] && before + CopyableMembers([]) == before;
    while idx < |members|
      invariant 0 <= idx <= |members|
      invariant root.members == Dedup(MemberKey, before + CopyableMembers(members[..idx]))
      invariant old(root.members) <= root.members
      invariant any <==> root.members != old(root.members)
    {
      CopyStep(before, members, idx);
      var added := CopyField(root, CStr(members[idx].0), members[idx].1);
      any := any || added;
      idx := idx + 1;
    }
    assert members[..|members|] == members;
  }

  /** One field: skipped when it is internal, or when a source of higher priority has added its key already. */
  method CopyField(root: MutableObject, key: string, val: Json) returns (added: bool)
    modifies root
    ensures added <==> !IsInternalField(key) && !HasKey(MemberKey, old(root.members), key)
    ensures root.members == old(root.members) + if added then [(key, val)] else []
  {
    if IsInternalField(key) { return false; }
    if root.Contains(key) { return false; }
    root.Add(key, val);
    added := true;
  }

  /** What one iteration of the copy loop must do to the merged object. */
  lemma CopyStep(before: seq<Member>, members: seq<Member>, idx: nat)
    requires idx < |members|
    ensures var key := CStr(members[idx].0);
            var merged := Dedup(MemberKey, before + CopyableMembers(members[..idx]));
            Dedup(MemberKey, before + CopyableMembers(members[..idx + 1])) ==
            if IsInternalField(key) || HasKey(MemberKey, merged, key) then merged
            else merged + [(key, members[idx].1)]
  {
    var key, val := CStr(members[idx].0), members[idx].1;
    var offered := before + CopyableMembers(members[..idx]);
    assert members[..idx + 1][..idx] == members[..idx];
    if IsInternalField(key) {
      assert before + CopyableMembers(members[..idx + 1]) == offered;
    } else {
      assert before + CopyableMembers(members[..idx + 1]) == offered + [(key, val)];
      DedupStep(MemberKey, offered, (key, val));
      KnownKeys(offered, key);
    }
  }

  lemma KnownKeys(offered: seq<Member>, key: string)
    ensures HasKey(MemberKey, Dedup(MemberKey, offered), key) <==> HasKey(MemberKey, offered, key)
  {
    DedupKeys(MemberKey, offered);
  }

  method BuildLogAttributes(lib: Library, event: Json, raw: Option<Json>) returns (text: string)
    ensures text == WriteObject(lib, LogMembers(event, raw))
  {
    var root := new MutableObject();
    var any := CopyNonInternalFields(root, Some(event), []);
    assert [] + Copyable(Some(event)) == Copyable(Some(event));
    var anyRaw := CopyNonInternalFields(root, raw, Copyable(Some(event)));
    any := anyRaw || any;
    assert root.members == LogMembers(event, raw) && (any <==> root.members != []);
    if !any { return ""; }
    var json := lib.write(JObject(root.members));
    text := if json.Some? then json.value else "";
  }

  //------------------------------------------------------------------ the fields by name

  /** The field names kept out of the log attributes. */
  lemma InternalExactly(key: string)
    ensures IsInternalField(key) <==>
            || (|key| > 0 && key[0] == '_')
            || key == "host" || key == "source" || key == "sourcetype" || key == "index" || key == "splunk_server"
            || key == "linecount" || key == "punct" || key == "eventtype"
  {
    ResourceKeysExactly(key);
    assert key in NOISE_KEYS <==> key == NOISE_KEYS[0] || key == NOISE_KEYS[1] || key == NOISE_KEYS[2];
  }

  lemma ResourceKeysExactly(key: string)
    ensures IsResourceKey(key) <==>
            key == "host" || key == "source" || key == "sourcetype" || key == "index" || key == "splunk_server"
  {
    var k := RESOURCE_KEYS;
    assert k[0].splunkKey == "host" && k[1].splunkKey == "source" && k[2].splunkKey == "sourcetype";
    assert k[3].splunkKey == "index" && k[4].splunkKey == "splunk_server";
  }

  /** The attribute `name` for the string field `key`, if the event has one. */
  function Promoted(event: Json, key: string, name: string): seq<Member> {
    match GetStr(Some(event), key) case Some(v) => [(name, JString(v))] case None => []
  }

  lemma OneMapping(event: Json, front: seq<ResourceKeyMapping>, last: ResourceKeyMapping)
    ensures ResourceMembers(event, front + [last]) ==
            ResourceMembers(event, front) + Promoted(event, last.splunkKey, last.otlpKey)
  {
    assert (front + [last])[..|front|] == front;
  }

  /** The resource attributes: these five fields under these names, in this order. */
  lemma ResourceExactly(event: Json)
    ensures ResourceMembers(event, RESOURCE_KEYS) ==
            Promoted(event, "host", "host.name") + Promoted(event, "source", "com.splunk.source")
            + Promoted(event, "sourcetype", "com.splunk.sourcetype") + Promoted(event, "index", "com.splunk.index")
            + Promoted(event, "splunk_server", "com.splunk.server")
  {
    var k := RESOURCE_KEYS;
    FiveMappings(event, k[0], k[1], k[2], k[3], k[4]);
    assert k == [k[0], k[1], k[2], k[3], k[4]];
  }

  lemma FiveMappings(event: Json, a: ResourceKeyMapping, b: ResourceKeyMapping, c: ResourceKeyMapping,
                     d: ResourceKeyMapping, e: ResourceKeyMapping)
    ensures ResourceMembers(event, [a, b, c, d, e]) ==
            Promoted(event, a.splunkKey, a.otlpKey) + Promoted(event, b.splunkKey, b.otlpKey)
            + Promoted(event, c.splunkKey, c.otlpKey) + Promoted(event, d.splunkKey, d.otlpKey)
            + Promoted(event, e.splunkKey, e.otlpKey)
  {
    OneMapping(event, [], a);
    OneMapping(event, [a], b);
    OneMapping(event, [a, b], c);
    OneMapping(event, [a, b, c], d);
    OneMapping(event, [a, b, c, d], e);
    assert [] + [a] == [a] && [a] + [b] == [a, b] && [a, b] + [c] == [a, b, c];
    assert [a, b, c] + [d] == [a, b, c, d] && [a, b, c, d] + [e] == [a, b, c, d, e];
    assert [] + Promoted(event, a.splunkKey, a.otlpKey) == Promoted(event, a.splunkKey, a.otlpKey);
  }

  //------------------------------------------------------------------ what the merge guarantees

  /** One of the members is called `key`, read as a C string. */
  predicate Names(members: seq<Member>, key: string) {
    exists i :: 0 <= i < |members| && CStr(members[i].0) == key
  }

  lemma NamesOfExtension(front: seq<Member>, last: Member, key: string)
    ensures Names(front + [last], key) <==> Names(front, key) || CStr(last.0) == key
  {
    var all := front + [last];
    if i :| 0 <= i < |front| && CStr(front[i].0) == key {
      assert CStr(all[i].0) == key;
    }
    if CStr(last.0) == key {
      assert CStr(all[|front|].0) == key;
    }
  }

  lemma {:induction false} CopyableKeys(members: seq<Member>, key: string)
    ensures HasKey(MemberKey, CopyableMembers(members), key) <==> !IsInternalField(key) && Names(members, key)
  {
    if members == [] {
    } else {
      var front, last := members[..|members| - 1], members[|members| - 1];
      CopyableKeys(front, key);
      assert members == front + [last];
      NamesOfExtension(front, last, key);
      CopyableKeysStep(CopyableMembers(front), last, key);
    }
  }

  lemma CopyableKeysStep(copied: seq<Member>, last: Member, key: string)
    ensures var all := copied + if IsInternalField(CStr(last.0)) then [] else [(CStr(last.0), last.1)];
            HasKey(MemberKey, all, key) <==>
            HasKey(MemberKey, copied, key) || (!IsInternalField(CStr(last.0)) && CStr(last.0) == key)
  {
    if IsInternalField(CStr(last.0)) {
      assert copied + [] == copied;
    } else {
      HasKeyOfExtension(MemberKey, copied, (CStr(last.0), last.1), key);
    }
  }

  /** `key` names a field of the object `source`, read as a C string. */
  predicate IsFieldOf(source: Option<Json>, key: string) {
    source.Some? && source.value.JObject? && Names(source.value.members, key)
  }

  lemma HasKeyOfConcat(a: seq<Member>, b: seq<Member>, key: string)
    ensures HasKey(MemberKey, a + b, key) <==> HasKey(MemberKey, a, key) || HasKey(MemberKey, b, key)
    ensures HasKey(MemberKey, a, key) ==>
              HasKey(MemberKey, a + b, key) && FirstIndex(MemberKey, a + b, key) == FirstIndex(MemberKey, a, key)
    ensures HasKey(MemberKey, b, key) && !HasKey(MemberKey, a, key) ==>
              HasKey(MemberKey, a + b, key)
              && FirstIndex(MemberKey, a + b, key) == |a| + FirstIndex(MemberKey, b, key)
  {
    var c := a + b;
    assert forall i :: 0 <= i < |a| ==> c[i] == a[i];
    assert forall i :: 0 <= i < |b| ==> c[|a| + i] == b[i];
    if HasKey(MemberKey, a, key) {
      var i := FirstIndex(MemberKey, a, key);
      assert MemberKey(c[i]) == key;
    } else if HasKey(MemberKey, b, key) {
      var i := FirstIndex(MemberKey, b, key);
      assert MemberKey(c[|a| + i]) == key;
    }
  }

  /**
   * The merged object has each key once; its keys are the non-internal fields of the event and of the
   * parsed `_raw`; members appear in first-occurrence order.
   */
  lemma LogMembersKeys(event: Json, raw: Option<Json>, key: string)
    ensures SameKeysOnce(MemberKey, Copyable(Some(event)) + Copyable(raw), LogMembers(event, raw))
    ensures FirstsInOrder(MemberKey, Copyable(Some(event)) + Copyable(raw), LogMembers(event, raw))
    ensures HasKey(MemberKey, LogMembers(event, raw), key) <==>
            !IsInternalField(key) && (IsFieldOf(Some(event), key) || IsFieldOf(raw, key))
  {
    var a, b := Copyable(Some(event)), Copyable(raw);
    DedupOrder(MemberKey, a + b);
    KnownKeys(a + b, key);
    HasKeyOfConcat(a, b, key);
    if event.JObject? { CopyableKeys(event.members, key); }
    if raw.Some? && raw.value.JObject? { CopyableKeys(raw.value.members, key); }
  }

  /** Each merged value is the first one offered under its key, and the event beats its `_raw`. */
  lemma EventBeatsRaw(event: Json, raw: Option<Json>, j: nat)
    requires j < |LogMembers(event, raw)|
    ensures var m := LogMembers(event, raw)[j];
            var a, b := Copyable(Some(event)), Copyable(raw);
            if HasKey(MemberKey, a, m.0) then m == a[FirstIndex(MemberKey, a, m.0)]
            else HasKey(MemberKey, b, m.0) && m == b[FirstIndex(MemberKey, b, m.0)]
  {
    var m := LogMembers(event, raw)[j];
    var a, b := Copyable(Some(event)), Copyable(raw);
    KeptIsFirst(a + b, j);
    HasKeyOfConcat(a, b, m.0);
  }

  lemma KeptIsFirst(offered: seq<Member>, j: nat)
    requires j < |Dedup(MemberKey, offered)|
    ensures var m := Dedup(MemberKey, offered)[j];
            HasKey(MemberKey, offered, m.0) && m == offered[FirstIndex(MemberKey, offered, m.0)]
  {
    DedupOrder(MemberKey, offered);
    var m := Dedup(MemberKey, offered)[j];
    assert HasKey(MemberKey, offered, MemberKey(m));
  }

  /** The first field of `source` called `key`, read as a C string, has this value. */
  predicate FirstNamed(source: Option<Json>, key: string, value: Json) {
    && source.Some? && source.value.JObject?
    && exists i :: 0 <= i < |source.value.members| && IsFirstNamed(source.value.members, key, value, i)
  }

  predicate IsFirstNamed(members: seq<Member>, key: string, value: Json, i: nat) {
    && i < |members| && CStr(members[i].0) == key && members[i].1 == value
    && forall j :: 0 <= j < i ==> CStr(members[j].0) != key
  }

  /** The first copyable member called `key`. */
  predicate FirstCopied(copied: seq<Member>, key: string, value: Json) {
    HasKey(MemberKey, copied, key) && copied[FirstIndex(MemberKey, copied, key)] == (key, value)
  }

  lemma {:induction false} CopiedIsFirst(members: seq<Member>, key: string, value: Json)
    requires !IsInternalField(key)
    ensures FirstCopied(CopyableMembers(members), key, value) <==>
            exists i :: 0 <= i < |members| && IsFirstNamed(members, key, value, i)
  {
    if members == [] {
    } else {
      var front, last := members[..|members| - 1], members[|members| - 1];
      CopiedIsFirst(front, key, value);
      assert members == front + [last];
      CopiedOneMore(CopyableMembers(front), last, key, value);
      CopyableKeys(front, key);
      NamedOneMore(front, last, key, value);
    }
  }

  lemma CopiedOneMore(copied: seq<Member>, last: Member, key: string, value: Json)
    requires !IsInternalField(key)
    ensures FirstCopied(copied + if IsInternalField(CStr(last.0)) then [] else [(CStr(last.0), last.1)], key, value) <==>
            FirstCopied(copied, key, value)
            || (!HasKey(MemberKey, copied, key) && CStr(last.0) == key && last.1 == value)
  {
    if IsInternalField(CStr(last.0)) {
      assert copied + [] == copied;
    } else {
      var more := (CStr(last.0), last.1);
      HasKeyOfExtension(MemberKey, copied, more, key);
      if HasKey(MemberKey, copied + [more], key) { FirstIndexOfExtension(MemberKey, copied, more, key); }
    }
  }

  lemma NamedOneMore(front: seq<Member>, last: Member, key: string, value: Json)
    ensures (exists i :: 0 <= i < |front + [last]| && IsFirstNamed(front + [last], key, value, i)) <==>
            || (exists i :: 0 <= i < |front| && IsFirstNamed(front, key, value, i))
            || (!Names(front, key) && CStr(last.0) == key && last.1 == value)
  {
    var all := front + [last];
    assert forall i :: 0 <= i < |front| ==> all[i] == front[i];
    forall i | 0 <= i < |front| ensures IsFirstNamed(all, key, value, i) <==> IsFirstNamed(front, key, value, i) {
    }
    assert IsFirstNamed(all, key, value, |front|) <==> !Names(front, key) && CStr(last.0) == key && last.1 == value;
  }

  /** The merged object, member by member: the event's first field of that name, or else that of its `_raw`. */
  lemma LogMembersExactly(event: Json, raw: Option<Json>, key: string, value: Json)
    ensures (key, value) in LogMembers(event, raw) <==>
            !IsInternalField(key)
            && (FirstNamed(Some(event), key, value) || (!IsFieldOf(Some(event), key) && FirstNamed(raw, key, value)))
  {
    LogMembersKeys(event, raw, key);
    CopiedOf(Some(event), key, value);
    CopiedOf(raw, key, value);
    var a, b, merged := Copyable(Some(event)), Copyable(raw), LogMembers(event, raw);
    if HasKey(MemberKey, merged, key) {
      var j: nat :| j < |merged| && MemberKey(merged[j]) == key;
      EventBeatsRaw(event, raw, j);
      if (key, value) in merged {
        var i: nat :| i < |merged| && merged[i] == (key, value);
        assert MemberKey(merged[i]) == MemberKey(merged[j]);
        assert i == j;
      }
    }
    if (key, value) in merged {
      var i: nat :| i < |merged| && merged[i] == (key, value);
      assert MemberKey(merged[i]) == key;
    }
  }

  lemma CopiedOf(source: Option<Json>, key: string, value: Json)
    ensures !IsInternalField(key) ==> (FirstCopied(Copyable(source), key, value) <==> FirstNamed(source, key, value))
    ensures !IsInternalField(key) ==> (HasKey(MemberKey, Copyable(source), key) <==> IsFieldOf(source, key))
  {
    if !IsInternalField(key) && source.Some? && source.value.JObject? {
      CopiedIsFirst(source.value.members, key, value);
      CopyableKeys(source.value.members, key);
    }
  }

  /** No Splunk field ends up in both bags. */
  lemma BagsAreDisjoint(event: Json, raw: Option<Json>, i: nat)
    requires i < |RESOURCE_KEYS|
    ensures !HasKey(MemberKey, LogMembers(event, raw), RESOURCE_KEYS[i].splunkKey)
  {
    assert IsResourceKey(RESOURCE_KEYS[i].splunkKey);
    LogMembersKeys(event, raw, RESOURCE_KEYS[i].splunkKey);
  }
}
