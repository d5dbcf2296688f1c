/** One Splunk event to the projected columns of one row: lazily, with memoised shared inputs. */
module EventMapping {
  import opened Attributes
  import opened Common
  import opened Epoch
  import opened JsonValues
  import opened Text

  /** One output value; the names follow the DuckDB types of the schema. */
  datatype Value =
    | NullValue
    | TimestampNs(nanos: int)
    | Varchar(text: string)
    | Integer(n: int)

  type Row = seq<Value>

  const COL_TIME := 0
  const COL_OBSERVED_TIME := 1
  const COL_TRACE_ID := 2
  const COL_SPAN_ID := 3
  const COL_SERVICE_NAME := 4
  const COL_SEVERITY_NUMBER := 7
  const COL_SEVERITY_TEXT := 8
  const COL_BODY := 10
  const COL_RESOURCE_ATTRS := 11
  const COL_LOG_ATTRS := 15
  const COLUMN_COUNT := 18

  //------------------------------------------------------------------ field lookup

  function SeverityToNumber(severity: string): int {
    var s := Lower(severity);
    if s == "trace" then 1
    else if s == "debug" then 5
    else if s == "info" || s == "notice" || s == "ok" then 9
    else if s == "warn" || s == "warning" then 13
    else if s == "error" || s == "err" then 17
    else if s == "critical" || s == "crit" || s == "alert" || s == "emergency" || s == "fatal" then 21
    else 0
  }

  /** The first string under any of `keys` in one source. */
  function LookupIn(source: Option<Json>, keys: seq<string>): Option<string> {
    if keys == [] then None
    else if GetStr(source, keys[0]).Some? then GetStr(source, keys[0])
    else LookupIn(source, keys[1..])
  }

  /** The first string under any of `keys`, trying the sources in order. */
  function LookupStr(sources: seq<Option<Json>>, keys: seq<string>): Option<string> {
    if sources == [] then None
    else if LookupIn(sources[0], keys).Some? then LookupIn(sources[0], keys)
    else LookupStr(sources[1..], keys)
  }

  /** Where the body is looked up. */
  const BODY_KEYS: seq<string> := ["_raw", "message"]

  /** A nested `fields` object, if it is one. */
  function NestedFields(event: Json): Option<Json> {
    match Get(event, "fields")
    case Some(v) => if v.JObject? then Some(v) else None
    case None => None
  }

  function SkipJsonSpace(s: string): string {
    if s != [] && (s[0] == ' ' || s[0] == '\t' || s[0] == '\n' || s[0] == '\r') then SkipJsonSpace(s[1..]) else s
  }

  /** The JSON object carried as text in `_raw`, if there is one. */
  function RawObject(lib: Library, event: Json): Option<Json> {
    match GetStr(Some(event), "_raw")
    case None => None
    case Some(raw) =>
      var p := SkipJsonSpace(raw);
      if p == [] || p[0] != '{' then None
      else
        match lib.parse(raw)
        case None => None
        case Some(root) => if root.JObject? then Some(root) else None
  }

  function SplunkTime(lib: Library, time: Option<Json>): Value {
    match time
    case Some(JString(s)) =>
      var str := CStr(s);
      (match lib.iso8601(str)
       case Some(nanos) => TimestampNs(nanos)
       case None =>
         match lib.strtod(str)
         case Some(v) => TimestampNs(EpochToNanos(v))
         case None => NullValue)
    case Some(JNumber(n)) => TimestampNs(EpochToNanos(n))
    case _ => NullValue
  }

  //------------------------------------------------------------------ the eager specification

  function TextOrNull(s: Option<string>): Value {
    match s case Some(v) => Varchar(v) case None => NullValue
  }

  function NonEmptyText(s: string): Value {
    if s == "" then NullValue else Varchar(s)
  }

  function Sources(lib: Library, event: Json): seq<Option<Json>> {
    [Some(event), NestedFields(event), RawObject(lib, event)]
  }

  function SeverityText(lib: Library, event: Json): Option<string> {
    LookupStr(Sources(lib, event), ["level", "severity", "status"])
  }

  function SeverityNumber(lib: Library, event: Json): Value {
    match SeverityText(lib, event) case Some(s) => Integer(SeverityToNumber(s)) case None => NullValue
  }

  function ResourceText(lib: Library, event: Json): Value {
    NonEmptyText(WriteObject(lib, ResourceMembers(event, RESOURCE_KEYS)))
  }

  function LogText(lib: Library, event: Json): Value {
    NonEmptyText(WriteObject(lib, LogMembers(event, RawObject(lib, event))))
  }

  function LookupText(lib: Library, event: Json, keys: seq<string>): Value {
    TextOrNull(LookupStr(Sources(lib, event), keys))
  }

  /** Every computed column, evaluated eagerly. */
  datatype Columns = Columns(time: Value, traceId: Value, spanId: Value, service: Value,
                             severityNumber: Value, severityText: Value, body: Value,
                             resource: Value, logs: Value)
  {
    /** The 18 columns in schema order. */
    function Layout(): (row: Row)
      ensures |row| == COLUMN_COUNT
    {
      [ time, time, traceId, spanId, service, NullValue, NullValue, severityNumber, severityText,
        NullValue, body, resource, NullValue, NullValue, NullValue, logs, NullValue, NullValue ]
    }

    /** The same layout read by column id, the way the column switch is written. */
    function At(id: nat): (v: Value)
      ensures v == Column(Layout(), id)
    {
      match id
      case 0 => time
      case 1 => time
      case 2 => traceId
      case 3 => spanId
      case 4 => service
      case 7 => severityNumber
      case 8 => severityText
      case 10 => body
      case 11 => resource
      case 15 => logs
      case _ => NullValue
    }
  }

  function EventColumns(lib: Library, event: Json): Columns {
    Columns(SplunkTime(lib, Get(event, "_time")),
            LookupText(lib, event, ["trace_id"]),
            LookupText(lib, event, ["span_id"]),
            LookupText(lib, event, ["service", "service_name"]),
            SeverityNumber(lib, event),
            TextOrNull(SeverityText(lib, event)),
            LookupText(lib, event, BODY_KEYS),
            ResourceText(lib, event),
            LogText(lib, event))
  }

  function FullRow(lib: Library, event: Json): (row: Row)
    ensures |row| == COLUMN_COUNT
  {
    EventColumns(lib, event).Layout()
  }

  /** What slot `id` of the full row holds; ids outside the schema are virtual columns and read NULL. */
  function Column(row: Row, id: nat): Value {
    if id < |row| then row[id] else NullValue
  }

  function Projected(lib: Library, event: Json, columnIds: seq<nat>): (row: Row)
    ensures |row| == |columnIds|
    ensures forall c :: 0 <= c < |columnIds| ==> row[c] == Column(FullRow(lib, event), columnIds[c])
  {
    var full := FullRow(lib, event);
    seq(|columnIds|, c requires 0 <= c < |columnIds| => Column(full, columnIds[c]))
  }

  //------------------------------------------------------------------ the lazy implementation

  /** Columns whose value looks at the parsed `_raw` payload. */
  predicate NeedsRaw(id: nat) {
    id in {COL_TRACE_ID, COL_SPAN_ID, COL_SERVICE_NAME, COL_SEVERITY_NUMBER, COL_SEVERITY_TEXT, COL_BODY, COL_LOG_ATTRS}
  }

  predicate NeedsTime(id: nat) {
    id in {COL_TIME, COL_OBSERVED_TIME}
  }

  predicate SomeNeedsRaw(columnIds: seq<nat>) {
    exists c :: 0 <= c < |columnIds| && NeedsRaw(columnIds[c])
  }

  predicate SomeNeedsTime(columnIds: seq<nat>) {
    exists c :: 0 <= c < |columnIds| && NeedsTime(columnIds[c])
  }

  lemma NeedsOneMore(front: seq<nat>, last: nat)
    ensures SomeNeedsRaw(front + [last]) <==> SomeNeedsRaw(front) || NeedsRaw(last)
    ensures SomeNeedsTime(front + [last]) <==> SomeNeedsTime(front) || NeedsTime(last)
  {
    var all := front + [last];
    assert forall c :: 0 <= c < |front| ==> all[c] == front[c];
    assert all[|front|] == last;
  }

  /** The first `c` slots are filled. */
  predicate MapsUpTo(columns: Columns, columnIds: seq<nat>, row: Row, c: nat) {
    c <= |columnIds| == |row| && forall i :: 0 <= i < c ==> row[i] == columns.At(columnIds[i])
  }

  lemma MapsOneMore(columns: Columns, columnIds: seq<nat>, row: Row, c: nat, v: Value)
    requires MapsUpTo(columns, columnIds, row, c) && c < |columnIds| && v == columns.At(columnIds[c])
    ensures MapsUpTo(columns, columnIds, row[c := v], c + 1)
  {
  }

  lemma MappedIsProjected(lib: Library, event: Json, columnIds: seq<nat>, row: Row)
    requires MapsUpTo(EventColumns(lib, event), columnIds, row, |columnIds|)
    ensures row == Projected(lib, event, columnIds)
  {
    var columns := EventColumns(lib, event);
    assert forall i :: 0 <= i < |columnIds| ==> row[i] == Column(columns.Layout(), columnIds[i]);
  }

  /** The memo caches of one `MapEvent` call, and how often each shared input was computed. */
  class EventMapper {
    const lib: Library
    const event: Json
    var rawParsed: bool
    var rawCache: Option<Json>
    var severityDone: bool
    var severityCache: Option<string>
    var timeDone: bool
    var timeCache: Value
    var rawParses: nat
    var timeParses: nat

    predicate Valid()
      reads this
    {
      && (rawParsed ==> rawCache == RawObject(lib, event))
      && (severityDone ==> rawParsed && severityCache == SeverityText(lib, event))
      && (timeDone ==> timeCache == SplunkTime(lib, Get(event, "_time")))
      && rawParses == (if rawParsed then 1 else 0)
      && timeParses == (if timeDone then 1 else 0)
    }

    constructor (lib: Library, event: Json)
      ensures Valid() && this.lib == lib && this.event == event
      ensures rawParses == 0 && timeParses == 0
    {
      this.lib, this.event := lib, event;
      rawParsed, rawCache := false, None;
      severityDone, severityCache := false, None;
      timeDone, timeCache := false, NullValue;
      rawParses, timeParses := 0, 0;
    }

    method Raw() returns (r: Option<Json>)
      requires Valid()
      modifies this
      ensures Valid() && r == RawObject(lib, event) && rawParses == 1
      ensures timeParses == old(timeParses)
    {
      if !rawParsed {
        rawCache := RawObject(lib, event);
        rawParsed := true;
        rawParses := rawParses + 1;
      }
      r := rawCache;
    }

    /** A `LookupStr` over event, nested fields and parsed `_raw`; it always forces the `_raw` parse. */
    method Lookup(fields: Option<Json>, keys: seq<string>) returns (r: Option<string>)
      requires Valid() && fields == NestedFields(event)
      modifies this
      ensures Valid() && r == LookupStr(Sources(lib, event), keys) && rawParses == 1
      ensures timeParses == old(timeParses)
    {
      var raw := Raw();
      r := LookupStr([Some(event), fields, raw], keys);
    }

    method Severity(fields: Option<Json>) returns (r: Option<string>)
      requires Valid() && fields == NestedFields(event)
      modifies this
      ensures Valid() && r == SeverityText(lib, event) && rawParses == 1
      ensures timeParses == old(timeParses)
    {
      if !severityDone {
        severityCache := Lookup(fields, ["level", "severity", "status"]);
        severityDone := true;
      }
      r := severityCache;
    }

    method Timestamp() returns (r: Value)
      requires Valid()
      modifies this
      ensures Valid() && r == SplunkTime(lib, Get(event, "_time")) && timeParses == 1
      ensures rawParses == old(rawParses)
    {
      if !timeDone {
        timeCache := SplunkTime(lib, Get(event, "_time"));
        timeDone := true;
        timeParses := timeParses + 1;
      }
      r := timeCache;
    }

    method SeverityAsNumber(fields: Option<Json>) returns (v: Value)
      requires Valid() && fields == NestedFields(event)
      modifies this
      ensures Valid() && v == SeverityNumber(lib, event) && rawParses == 1
      ensures timeParses == old(timeParses)
    {
      var s := Severity(fields);
      v := if s.Some? then Integer(SeverityToNumber(s.value)) else NullValue;
    }

    method Text(fields: Option<Json>, keys: seq<string>) returns (v: Value)
      requires Valid() && fields == NestedFields(event)
      modifies this
      ensures Valid() && v == LookupText(lib, event, keys) && rawParses == 1
      ensures timeParses == old(timeParses)
    {
      var s := Lookup(fields, keys);
      v := if s.Some? then Varchar(s.value) else NullValue;
    }

    method Resources() returns (v: Value)
      ensures v == ResourceText(lib, event)
    {
      var text := BuildResourceAttributes(lib, event, RESOURCE_KEYS);
      v := if text != "" then Varchar(text) else NullValue;
    }

    method Logs() returns (v: Value)
      requires Valid()
      modifies this
      ensures Valid() && v == LogText(lib, event) && rawParses == 1
      ensures timeParses == old(timeParses)
    {
      var raw := Raw();
      var text := BuildLogAttributes(lib, event, raw);
      v := if text != "" then Varchar(text) else NullValue;
    }

    /** The switch of the column loop. */
    method MapColumn(fields: Option<Json>, id: nat) returns (v: Value)
      requires Valid() && fields == NestedFields(event)
      modifies this
      ensures Valid()
      ensures v == EventColumns(lib, event).At(id)
      ensures rawParses == if NeedsRaw(id) then 1 else old(rawParses)
      ensures timeParses == if NeedsTime(id) then 1 else old(timeParses)
    {
      match id
      case 0 => v := Timestamp();
      case 1 => v := Timestamp();
      case 2 => v := Text(fields, ["trace_id"]);
      case 3 => v := Text(fields, ["span_id"]);
      case 4 => v := Text(fields, ["service", "service_name"]);
      case 7 => v := SeverityAsNumber(fields);
      case 8 => var s := Severity(fields); v := TextOrNull(s);
      case 10 => v := Text(fields, BODY_KEYS);
      case 11 => v := Resources();
      case 15 => v := Logs();
      case _ => v := NullValue;
    }

    /** After the columns `done`: each shared input was computed once if one of them needs it. */
    ghost predicate Progress(done: seq<nat>)
      reads this
    {
      && Valid()
      && rawParses == (if SomeNeedsRaw(done) then 1 else 0)
      && timeParses == (if SomeNeedsTime(done) then 1 else 0)
    }

    method MapNext(fields: Option<Json>, columnIds: seq<nat>, c: nat) returns (v: Value)
      requires c < |columnIds| && Progress(columnIds[..c]) && fields == NestedFields(event)
      modifies this
      ensures Progress(columnIds[..c + 1])
      ensures v == EventColumns(lib, event).At(columnIds[c])
    {
      NeedsOneMore(columnIds[..c], columnIds[c]);
      assert columnIds[..c + 1] == columnIds[..c] + [columnIds[c]];
      v := MapColumn(fields, columnIds[c]);
    }

    /** The first `c` slots of the row are filled. */
    ghost predicate Filled(columnIds: seq<nat>, row: Row, c: nat)
      reads this
    {
      MapsUpTo(EventColumns(lib, event), columnIds, row, c) && Progress(columnIds[..c])
    }

    method FillSlot(fields: Option<Json>, columnIds: seq<nat>, row: Row, c: nat) returns (next: Row)
      requires Filled(columnIds, row, c) && c < |columnIds| && fields == NestedFields(event)
      modifies this
      ensures Filled(columnIds, next, c + 1)
    {
      var v := MapNext(fields, columnIds, c);
      MapsOneMore(EventColumns(lib, event), columnIds, row, c, v);
      next := row[c := v];
    }

    lemma NothingFilled(columnIds: seq<nat>, row: Row)
      requires Progress([]) && |row| == |columnIds|
      ensures Filled(columnIds, row, 0)
    {
      assert columnIds[..0] == [];
    }

    lemma AllFilled(columnIds: seq<nat>, row: Row, c: nat)
      requires Filled(columnIds, row, c) && c >= |columnIds|
      ensures Progress(columnIds) && row == Projected(lib, event, columnIds)
    {
      assert columnIds[..c] == columnIds;
      MappedIsProjected(lib, event, columnIds, row);
    }

    /** The column loop. */
    method MapAll(fields: Option<Json>, columnIds: seq<nat>) returns (row: Row)
      requires Progress([]) && fields == NestedFields(event)
      modifies this
      ensures Progress(columnIds)
      ensures row == Projected(lib, event, columnIds)
    {
      row := seq(|columnIds|, _ => NullValue);
      var c := 0;
      NothingFilled(columnIds, row);
      while c < |columnIds|
        invariant Filled(columnIds, row, c)
      {
        row := FillSlot(fields, columnIds, row, c);
        c := c + 1;
      }
      AllFilled(columnIds, row, c);
    }
  }

  /**
   * Maps one event to the projected columns. `rawParses` and `timeParses` count the evaluations of
   * the two expensive shared inputs.
   */
  method MapEvent(lib: Library, event: Json, columnIds: seq<nat>)
    returns (row: Row, rawParses: nat, timeParses: nat)
    ensures row == Projected(lib, event, columnIds)
    ensures rawParses == if SomeNeedsRaw(columnIds) then 1 else 0
    ensures timeParses == if SomeNeedsTime(columnIds) then 1 else 0
  {
    var fields := Get(event, "fields");
    if fields.Some? && !fields.value.JObject? {
      fields := None;
    }
    var mapper := new EventMapper(lib, event);
    row := mapper.MapAll(fields, columnIds);
    rawParses, timeParses := mapper.rawParses, mapper.timeParses;
  }

  //------------------------------------------------------------------ properties of the mapping

  /** Source `i` is the one that answers, at key `j`: nothing earlier holds a string. */
  ghost predicate AnswersFirst(sources: seq<Option<Json>>, keys: seq<string>, i: nat, j: nat)
    requires i < |sources| && j < |keys|
  {
    && GetStr(sources[i], keys[j]).Some?
    && (forall k, l :: 0 <= k < i && 0 <= l < |keys| ==> GetStr(sources[k], keys[l]).None?)
    && (forall l :: 0 <= l < j ==> GetStr(sources[i], keys[l]).None?)
  }

  lemma {:induction false} LookupInFirst(source: Option<Json>, keys: seq<string>)
    ensures LookupIn(source, keys).None? <==> forall l :: 0 <= l < |keys| ==> GetStr(source, keys[l]).None?
    ensures LookupIn(source, keys).Some? ==>
              exists j :: 0 <= j < |keys| && AnswersFirst([source], keys, 0, j) && LookupIn(source, keys) == GetStr(source, keys[j])
  {
    if keys == [] {
    } else {
      var rest := keys[1..];
      assert forall l :: 0 <= l < |rest| ==> rest[l] == keys[l + 1];
      LookupInFirst(source, rest);
      if GetStr(source, keys[0]).Some? {
        assert AnswersFirst([source], keys, 0, 0);
      } else if LookupIn(source, keys).Some? {
        var j :| 0 <= j < |rest| && AnswersFirst([source], rest, 0, j) && LookupIn(source, rest) == GetStr(source, rest[j]);
        assert keys[j + 1] == rest[j];
        assert AnswersFirst([source], keys, 0, j + 1);
      } else {
        assert forall l :: 0 < l < |keys| ==> keys[l] == rest[l - 1];
      }
    }
  }

  /** A lookup answers from the first source that has any of the keys, and there from the first key. */
  lemma {:induction false} LookupPriority(sources: seq<Option<Json>>, keys: seq<string>)
    ensures LookupStr(sources, keys).None? <==>
            forall i, j :: 0 <= i < |sources| && 0 <= j < |keys| ==> GetStr(sources[i], keys[j]).None?
    ensures LookupStr(sources, keys).Some? ==>
              exists i, j :: 0 <= i < |sources| && 0 <= j < |keys| && AnswersFirst(sources, keys, i, j)
                             && LookupStr(sources, keys) == GetStr(sources[i], keys[j])
  {
    if sources == [] {
    } else {
      var rest := sources[1..];
      assert forall k :: 0 <= k < |rest| ==> rest[k] == sources[k + 1];
      LookupInFirst(sources[0], keys);
      LookupPriority(rest, keys);
      if LookupIn(sources[0], keys).Some? {
        var j :| 0 <= j < |keys| && AnswersFirst([sources[0]], keys, 0, j) && LookupIn(sources[0], keys) == GetStr(sources[0], keys[j]);
        assert GetStr([sources[0]][0], keys[j]).Some?;
        assert forall l :: 0 <= l < j ==> GetStr([sources[0]][0], keys[l]).None?;
        assert AnswersFirst(sources, keys, 0, j);
      } else if LookupStr(sources, keys).Some? {
        var i, j :| 0 <= i < |rest| && 0 <= j < |keys| && AnswersFirst(rest, keys, i, j) && LookupStr(rest, keys) == GetStr(rest[i], keys[j]);
        forall k, l | 0 <= k < i + 1 && 0 <= l < |keys| ensures GetStr(sources[k], keys[l]).None? {
          if k > 0 { assert rest[k - 1] == sources[k]; }
        }
        assert AnswersFirst(sources, keys, i + 1, j);
      }
    }
  }

  lemma SeverityAgrees(text: Option<string>, number: Value)
    requires number == match text case Some(s) => Integer(SeverityToNumber(s)) case None => NullValue
    ensures number.NullValue? <==> TextOrNull(text).NullValue?
    ensures TextOrNull(text).Varchar? ==> number == Integer(SeverityToNumber(TextOrNull(text).text))
  {
  }

  /** Severity number and text are NULL together, and both time columns agree. */
  lemma SharedColumnsAgree(lib: Library, event: Json)
    ensures var row := FullRow(lib, event);
            && (row[COL_SEVERITY_NUMBER].NullValue? <==> row[COL_SEVERITY_TEXT].NullValue?)
            && (row[COL_SEVERITY_TEXT].Varchar? ==>
                  row[COL_SEVERITY_NUMBER] == Integer(SeverityToNumber(row[COL_SEVERITY_TEXT].text)))
            && row[COL_TIME] == row[COL_OBSERVED_TIME]
  {
    SeverityAgrees(SeverityText(lib, event), SeverityNumber(lib, event));
  }

  /** The parsed `_raw` object never decides the body: the event and its nested fields do. */
  lemma BodyIgnoresParsedRaw(lib: Library, event: Json)
    ensures FullRow(lib, event)[COL_BODY] ==
            TextOrNull(LookupStr([Some(event), NestedFields(event)], BODY_KEYS))
  {
    RawTextComesFirst(lib, event, BODY_KEYS);
  }

  /** A lookup that begins with `_raw` never reaches the parsed `_raw`. */
  lemma RawTextComesFirst(lib: Library, event: Json, keys: seq<string>)
    requires keys != [] && keys[0] == "_raw"
    ensures LookupText(lib, event, keys) == TextOrNull(LookupStr([Some(event), NestedFields(event)], keys))
  {
    ParsedRawImpliesRawText(lib, event, keys);
    LastSourceSilent(Some(event), NestedFields(event), RawObject(lib, event), keys);
  }

  lemma ParsedRawImpliesRawText(lib: Library, event: Json, keys: seq<string>)
    requires keys != [] && keys[0] == "_raw"
    ensures LookupIn(Some(event), keys).Some? || LookupIn(RawObject(lib, event), keys).None?
  {
    LookupInFirst(Some(event), keys);
    LookupInFirst(RawObject(lib, event), keys);
  }

  lemma LastSourceSilent(s0: Option<Json>, s1: Option<Json>, s2: Option<Json>, keys: seq<string>)
    requires LookupIn(s0, keys).Some? || LookupIn(s2, keys).None?
    ensures LookupStr([s0, s1, s2], keys) == LookupStr([s0, s1], keys)
  {
    assert [s0, s1, s2][1..] == [s1, s2] && [s1, s2][1..] == [s2] && [s2][1..] == [];
    assert [s0, s1][1..] == [s1] && [s1][1..] == [];
    assert LookupStr([s2], keys) == LookupIn(s2, keys);
    assert LookupStr([s1], keys) == LookupIn(s1, keys);
    assert LookupStr([s1, s2], keys) == if LookupIn(s1, keys).Some? then LookupIn(s1, keys) else LookupIn(s2, keys);
  }

  /** Every column holds NULL or a value of its schema type. */
  predicate MatchesSchema(row: Row) {
    && |row| == COLUMN_COUNT
    && forall i :: 0 <= i < |row| ==>
         match row[i]
         case NullValue => true
         case TimestampNs(_) => i in {COL_TIME, COL_OBSERVED_TIME}
         case Integer(_) => i == COL_SEVERITY_NUMBER
         case Varchar(_) => i in {COL_TRACE_ID, COL_SPAN_ID, COL_SERVICE_NAME, COL_SEVERITY_TEXT, COL_BODY, COL_RESOURCE_ATTRS, COL_LOG_ATTRS}
  }

  /** Columns of the right kinds lay out to a row of the right types. */
  lemma LayoutMatchesSchema(c: Columns)
    requires c.time.NullValue? || c.time.TimestampNs?
    requires c.severityNumber.NullValue? || c.severityNumber.Integer?
    requires forall v :: v in [c.traceId, c.spanId, c.service, c.severityText, c.body, c.resource, c.logs] ==>
                         v.NullValue? || v.Varchar?
    ensures MatchesSchema(c.Layout())
  {
    assert forall i :: 0 <= i < 7 ==>
             [c.traceId, c.spanId, c.service, c.severityText, c.body, c.resource, c.logs][i].NullValue?
             || [c.traceId, c.spanId, c.service, c.severityText, c.body, c.resource, c.logs][i].Varchar?;
  }

  lemma RowsMatchSchema(lib: Library, event: Json)
    ensures MatchesSchema(FullRow(lib, event))
  {
    LayoutMatchesSchema(EventColumns(lib, event));
  }
}
