/** What each column of a row holds, in terms of the event's own JSON members. */
module RowMeaning {
  import opened Attributes
  import opened Common
  import opened Epoch
  import opened EventMapping
  import opened JsonValues
  import opened Text

  //------------------------------------------------------------------ the three sources

  /** `fields` is the nested object of that name, if the event has one. */
  ghost predicate IsNested(event: Json, fields: Option<Json>) {
    match fields
    case Some(f) => f.JObject? && FirstMember(event, "fields", f)
    case None => forall f: Json :: FirstMember(event, "fields", f) ==> !f.JObject?
  }

  /** After tabs, line ends and spaces, the text begins with a brace. */
  predicate BraceFirst(t: string) {
    exists n :: 0 <= n < |t| && BraceAt(t, n)
  }

  predicate BraceAt(t: string, n: nat) {
    && n < |t| && t[n] == '{'
    && forall k :: 0 <= k < n ==> t[k] as int == 9 || t[k] as int == 10 || t[k] as int == 13 || t[k] as int == 32
  }

  /** The `_raw` member holds the text `t`, and that looks like an object and parses to one. */
  ghost predicate CarriesRaw(lib: Library, event: Json, root: Json) {
    root.JObject? && exists s :: FirstMember(event, "_raw", JString(s)) && BraceFirst(CStr(s)) && lib.parse(CStr(s)) == Some(root)
  }

  /** `raw` is the object carried as text in `_raw`, if there is one. */
  ghost predicate IsRaw(lib: Library, event: Json, raw: Option<Json>) {
    match raw
    case Some(root) => CarriesRaw(lib, event, root)
    case None => forall root :: !CarriesRaw(lib, event, root)
  }

  lemma NestedExactly(event: Json, fields: Option<Json>)
    ensures IsNested(event, fields) <==> fields == NestedFields(event)
  {
    forall f ensures FirstMember(event, "fields", f) <==> Get(event, "fields") == Some(f) {
      GetExactly(event, "fields", f);
    }
  }

  lemma {:induction false} BraceExactly(t: string)
    ensures BraceFirst(t) <==> SkipJsonSpace(t) != [] && SkipJsonSpace(t)[0] == '{'
  {
    if t == [] {
    } else if t[0] == ' ' || t[0] == '\t' || t[0] == '\n' || t[0] == '\r' {
      var rest := t[1..];
      BraceExactly(rest);
      if n :| 0 <= n < |rest| && BraceAt(rest, n) {
        assert forall k :: 0 < k <= n ==> t[k] == rest[k - 1];
        assert BraceAt(t, n + 1);
      }
      if n :| 0 <= n < |t| && BraceAt(t, n) {
        assert n > 0 && forall k :: 0 <= k < |rest| ==> rest[k] == t[k + 1];
        assert BraceAt(rest, n - 1);
      }
    } else if t[0] == '{' {
      assert BraceAt(t, 0);
    } else {
      assert forall n :: 0 <= n < |t| && BraceAt(t, n) ==> n == 0;
    }
  }

  lemma CarriesRawExactly(lib: Library, event: Json, root: Json)
    ensures CarriesRaw(lib, event, root) <==> RawObject(lib, event) == Some(root)
  {
    forall s ensures FirstMember(event, "_raw", JString(s)) <==> Get(event, "_raw") == Some(JString(s)) {
      GetExactly(event, "_raw", JString(s));
    }
    match Get(event, "_raw")
    case Some(JString(s)) => BraceExactly(CStr(s));
    case _ =>
  }

  lemma RawExactly(lib: Library, event: Json, raw: Option<Json>)
    ensures IsRaw(lib, event, raw) <==> raw == RawObject(lib, event)
  {
    forall root ensures CarriesRaw(lib, event, root) <==> RawObject(lib, event) == Some(root) {
      CarriesRawExactly(lib, event, root);
    }
  }

  //------------------------------------------------------------------ text columns

  /** `v` is the string at the first key of the first source that has one; NULL exactly when none has. */
  ghost predicate Answers(sources: seq<Option<Json>>, keys: seq<string>, v: Value) {
    match v
    case NullValue => forall i, j :: 0 <= i < |sources| && 0 <= j < |keys| ==> GetStr(sources[i], keys[j]).None?
    case Varchar(text) =>
      exists i, j :: 0 <= i < |sources| && 0 <= j < |keys| && AnswersFirst(sources, keys, i, j)
                     && GetStr(sources[i], keys[j]) == Some(text)
    case _ => false
  }

  lemma LookupAnswers(sources: seq<Option<Json>>, keys: seq<string>)
    ensures Answers(sources, keys, TextOrNull(LookupStr(sources, keys)))
  {
    LookupPriority(sources, keys);
    if LookupStr(sources, keys).Some? {
      var i, j :| 0 <= i < |sources| && 0 <= j < |keys| && AnswersFirst(sources, keys, i, j)
                  && LookupStr(sources, keys) == GetStr(sources[i], keys[j]);
      assert GetStr(sources[i], keys[j]) == Some(TextOrNull(LookupStr(sources, keys)).text);
    }
  }

  lemma SourcesAnswer(lib: Library, event: Json, fields: Option<Json>, raw: Option<Json>, keys: seq<string>)
    requires IsNested(event, fields) && IsRaw(lib, event, raw)
    ensures Answers([Some(event), fields, raw], keys, LookupText(lib, event, keys))
  {
    NestedExactly(event, fields);
    RawExactly(lib, event, raw);
    LookupAnswers([Some(event), fields, raw], keys);
  }

  /** Which computed value goes into which slot. */
  lemma LayoutSlots(c: Columns)
    ensures var row := c.Layout();
            && row[0] == c.time && row[1] == c.time && row[2] == c.traceId && row[3] == c.spanId && row[4] == c.service
            && row[7] == c.severityNumber && row[8] == c.severityText && row[10] == c.body
            && row[11] == c.resource && row[15] == c.logs
  {
  }

  lemma TraceIdSlot(lib: Library, event: Json)
    ensures FullRow(lib, event)[2] == LookupText(lib, event, ["trace_id"])
  {
    LayoutSlots(EventColumns(lib, event));
  }

  lemma SpanIdSlot(lib: Library, event: Json)
    ensures FullRow(lib, event)[3] == LookupText(lib, event, ["span_id"])
  {
    LayoutSlots(EventColumns(lib, event));
  }

  lemma ServiceSlot(lib: Library, event: Json)
    ensures FullRow(lib, event)[4] == LookupText(lib, event, ["service", "service_name"])
  {
    LayoutSlots(EventColumns(lib, event));
  }

  lemma SeveritySlot(lib: Library, event: Json)
    ensures FullRow(lib, event)[8] == LookupText(lib, event, ["level", "severity", "status"])
  {
    LayoutSlots(EventColumns(lib, event));
  }

  lemma BodySlot(lib: Library, event: Json)
    ensures FullRow(lib, event)[10] == LookupText(lib, event, ["_raw", "message"])
  {
    LayoutSlots(EventColumns(lib, event));
  }

  /** The text columns: which keys they are looked up under, in the event, its `fields`, and its `_raw`. */
  lemma TextColumnsExactly(lib: Library, event: Json, fields: Option<Json>, raw: Option<Json>)
    requires IsNested(event, fields) && IsRaw(lib, event, raw)
    ensures Answers([Some(event), fields, raw], ["trace_id"], FullRow(lib, event)[2])
    ensures Answers([Some(event), fields, raw], ["span_id"], FullRow(lib, event)[3])
    ensures Answers([Some(event), fields, raw], ["service", "service_name"], FullRow(lib, event)[4])
    ensures Answers([Some(event), fields, raw], ["level", "severity", "status"], FullRow(lib, event)[8])
    ensures Answers([Some(event), fields, raw], ["_raw", "message"], FullRow(lib, event)[10])
  {
    TraceIdSlot(lib, event);
    SpanIdSlot(lib, event);
    ServiceSlot(lib, event);
    SeveritySlot(lib, event);
    BodySlot(lib, event);
    SourcesAnswer(lib, event, fields, raw, ["trace_id"]);
    SourcesAnswer(lib, event, fields, raw, ["span_id"]);
    SourcesAnswer(lib, event, fields, raw, ["service", "service_name"]);
    SourcesAnswer(lib, event, fields, raw, ["level", "severity", "status"]);
    SourcesAnswer(lib, event, fields, raw, ["_raw", "message"]);
  }

  //------------------------------------------------------------------ severity

  predicate Named(text: string, names: seq<string>) {
    exists i :: 0 <= i < |names| && SameIgnoringCase(text, names[i])
  }

  /** The number of a severity name, in any letter case; 0 for an unknown one. */
  predicate SeverityNumbered(text: string, n: int) {
    && (n == 1 <==> Named(text, ["trace"]))
    && (n == 5 <==> Named(text, ["debug"]))
    && (n == 9 <==> Named(text, ["info", "notice", "ok"]))
    && (n == 13 <==> Named(text, ["warn", "warning"]))
    && (n == 17 <==> Named(text, ["error", "err"]))
    && (n == 21 <==> Named(text, ["critical", "crit", "alert", "emergency", "fatal"]))
    && (n == 0 || n == 1 || n == 5 || n == 9 || n == 13 || n == 17 || n == 21)
  }

  lemma LowerName(text: string, name: string)
    requires forall i :: 0 <= i < |name| ==> 'a' <= name[i] <= 'z'
    ensures SameIgnoringCase(text, name) <==> Lower(text) == name
  {
    assert Lower(name) == name;
    CIEqualsExactly(text, name);
  }

  lemma NamedExactly(text: string, names: seq<string>)
    requires forall i, j :: 0 <= i < |names| && 0 <= j < |names[i]| ==> 'a' <= names[i][j] <= 'z'
    ensures Named(text, names) <==> Lower(text) in names
  {
    forall i | 0 <= i < |names| ensures SameIgnoringCase(text, names[i]) <==> Lower(text) == names[i] {
      LowerName(text, names[i]);
    }
  }

  lemma SeverityExactly(text: string)
    ensures SeverityNumbered(text, SeverityToNumber(text))
  {
    NamedExactly(text, ["trace"]);
    NamedExactly(text, ["debug"]);
    NamedExactly(text, ["info", "notice", "ok"]);
    NamedExactly(text, ["warn", "warning"]);
    NamedExactly(text, ["error", "err"]);
    NamedExactly(text, ["critical", "crit", "alert", "emergency", "fatal"]);
  }

  /** The severity number is that of the severity text, and NULL exactly with it. */
  lemma SeverityColumnExactly(lib: Library, event: Json)
    ensures var row := FullRow(lib, event);
            match row[8]
            case Varchar(text) => row[7].Integer? && SeverityNumbered(text, row[7].n)
            case _ => row[7] == NullValue
  {
    LayoutSlots(EventColumns(lib, event));
    match SeverityText(lib, event)
    case Some(text) => SeverityExactly(text);
    case None =>
  }

  //------------------------------------------------------------------ time

  /** A number is an epoch; a string is tried as ISO-8601 and then as a number; anything else is NULL. */
  ghost predicate IsTime(lib: Library, event: Json, v: Value) {
    && (forall n :: FirstMember(event, "_time", JNumber(n)) ==> v == TimestampNs(EpochToNanos(n)))
    && (forall s :: FirstMember(event, "_time", JString(s)) ==> IsTimeText(lib, CStr(s), v))
    && ((forall n :: !FirstMember(event, "_time", JNumber(n))) && (forall s :: !FirstMember(event, "_time", JString(s)))
        ==> v == NullValue)
  }

  predicate IsTimeText(lib: Library, text: string, v: Value) {
    match (lib.iso8601(text), lib.strtod(text))
    case (Some(nanos), _) => v == TimestampNs(nanos)
    case (None, Some(d)) => v == TimestampNs(EpochToNanos(d))
    case (None, None) => v == NullValue
  }

  lemma SplunkTimeExactly(lib: Library, event: Json)
    ensures IsTime(lib, event, SplunkTime(lib, Get(event, "_time")))
  {
    forall time ensures FirstMember(event, "_time", time) <==> Get(event, "_time") == Some(time) {
      GetExactly(event, "_time", time);
    }
    match Get(event, "_time")
    case Some(JNumber(n)) => assert FirstMember(event, "_time", JNumber(n));
    case Some(JString(s)) => assert FirstMember(event, "_time", JString(s));
    case _ =>
  }

  lemma TimeColumnsExactly(lib: Library, event: Json)
    ensures IsTime(lib, event, FullRow(lib, event)[0]) && FullRow(lib, event)[1] == FullRow(lib, event)[0]
  {
    SplunkTimeExactly(lib, event);
    TimeSlots(lib, event);
  }

  lemma TimeSlots(lib: Library, event: Json)
    ensures FullRow(lib, event)[0] == FullRow(lib, event)[1] == SplunkTime(lib, Get(event, "_time"))
  {
    LayoutSlots(EventColumns(lib, event));
  }

  //------------------------------------------------------------------ attributes

  /** `v` is the object of these members as text; NULL when there are none, or the writer gives no text. */
  predicate IsWritten(lib: Library, members: seq<Member>, v: Value) {
    if members == [] then v == NullValue
    else
      match lib.write(JObject(members))
      case Some(text) => v == if text == "" then NullValue else Varchar(text)
      case None => v == NullValue
  }

  /** The five promoted fields, in order. */
  function PromotedFields(event: Json): seq<Member> {
    Promoted(event, "host", "host.name") + Promoted(event, "source", "com.splunk.source")
    + Promoted(event, "sourcetype", "com.splunk.sourcetype") + Promoted(event, "index", "com.splunk.index")
    + Promoted(event, "splunk_server", "com.splunk.server")
  }

  /** The two bags; `Attributes.LogMembersExactly` says what is merged. */
  lemma AttributeColumnsExactly(lib: Library, event: Json, raw: Option<Json>)
    requires IsRaw(lib, event, raw)
    ensures IsWritten(lib, PromotedFields(event), FullRow(lib, event)[11])
    ensures IsWritten(lib, LogMembers(event, raw), FullRow(lib, event)[15])
  {
    RawExactly(lib, event, raw);
    ResourceExactly(event);
    WrittenText(lib, ResourceMembers(event, RESOURCE_KEYS));
    WrittenText(lib, LogMembers(event, raw));
    AttributeSlots(lib, event);
  }

  lemma AttributeSlots(lib: Library, event: Json)
    ensures FullRow(lib, event)[11] == NonEmptyText(WriteObject(lib, ResourceMembers(event, RESOURCE_KEYS)))
    ensures FullRow(lib, event)[15] == NonEmptyText(WriteObject(lib, LogMembers(event, RawObject(lib, event))))
  {
    LayoutSlots(EventColumns(lib, event));
  }

  lemma WrittenText(lib: Library, members: seq<Member>)
    ensures IsWritten(lib, members, NonEmptyText(WriteObject(lib, members)))
  {
  }

  /** The columns Splunk has no data for. */
  lemma OtherColumnsExactly(lib: Library, event: Json)
    ensures var row := FullRow(lib, event);
            && |row| == 18
            && row[5] == NullValue && row[6] == NullValue && row[9] == NullValue && row[12] == NullValue
            && row[13] == NullValue && row[14] == NullValue && row[16] == NullValue && row[17] == NullValue
  {
    LayoutOthers(EventColumns(lib, event));
  }

  lemma LayoutOthers(c: Columns)
    ensures var row := c.Layout();
            && |row| == 18
            && row[5] == NullValue && row[6] == NullValue && row[9] == NullValue && row[12] == NullValue
            && row[13] == NullValue && row[14] == NullValue && row[16] == NullValue && row[17] == NullValue
  {
  }
}
