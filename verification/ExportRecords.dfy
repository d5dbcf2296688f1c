/** One line of the export response: an error to raise, or the events it carries. */
module ExportRecords {
  import opened Common
  import opened EventMapping
  import opened JsonValues
  import opened Text

  datatype SearchError = SearchError(kind: string, text: string)

  /** What a line means before mapping. */
  datatype Record = Events(events: seq<Json>) | Raises(error: SearchError)

  /** What a line means after mapping its events to rows. */
  datatype LineOutcome = Yields(rows: seq<Row>) | Fails(error: SearchError)

  //------------------------------------------------------------------ specification

  /** The first ERROR or FATAL message; its text defaults to "(no detail)". */
  function FirstSearchError(messages: seq<Json>): Option<SearchError> {
    if messages == [] then None
    else
      match GetStr(Some(messages[0]), "type")
      case Some(kind) =>
        if CIEquals(kind, "FATAL") || CIEquals(kind, "ERROR") then
          Some(SearchError(kind, match GetStr(Some(messages[0]), "text") case Some(t) => t case None => "(no detail)"))
        else FirstSearchError(messages[1..])
      case None => FirstSearchError(messages[1..])
  }

  function RootError(root: Json): Option<SearchError> {
    match Get(root, "messages")
    case Some(JArray(items)) => FirstSearchError(items)
    case _ => None
  }

  function Objects(items: seq<Json>): seq<Json> {
    if items == [] then []
    else
      Objects(items[..|items| - 1]) + if items[|items| - 1].JObject? then [items[|items| - 1]] else []
  }

  function RootEvents(root: Json): seq<Json> {
    if !root.JObject? || Get(root, "preview") == Some(JBool(true)) then []
    else
      var result, results := Get(root, "result"), Get(root, "results");
      if result.Some? && result.value.JObject? then [result.value]
      else if results.Some? && results.value.JArray? then Objects(results.value.items)
      else if Get(root, "_time").Some? || Get(root, "_raw").Some? || Get(root, "message").Some? then [root]
      else []
  }

  function RootRecord(root: Json): Record {
    match RootError(root)
    case Some(e) => Raises(e)
    case None => Events(RootEvents(root))
  }

  function StripCarriageReturns(line: string): string {
    if line != [] && line[|line| - 1] == '\r' then StripCarriageReturns(line[..|line| - 1]) else line
  }

  function LineRecord(lib: Library, line: string): Record {
    var text := StripCarriageReturns(line);
    if text == [] then Events([])
    else match lib.parse(text) case None => Events([]) case Some(root) => RootRecord(root)
  }

  function Rows(lib: Library, columnIds: seq<nat>, events: seq<Json>): (rows: seq<Row>)
    ensures |rows| == |events|
    ensures forall i :: 0 <= i < |events| ==> rows[i] == Projected(lib, events[i], columnIds)
  {
    seq(|events|, i requires 0 <= i < |events| => Projected(lib, events[i], columnIds))
  }

  function LineRows(lib: Library, columnIds: seq<nat>, line: string): LineOutcome {
    match LineRecord(lib, line)
    case Raises(e) => Fails(e)
    case Events(events) => Yields(Rows(lib, columnIds, events))
  }

  //------------------------------------------------------------------ the parser

  method ThrowIfSearchError(root: Json) returns (error: Option<SearchError>)
    ensures error == RootError(root)
  {
    var messages := Get(root, "messages");
    if messages.None? || !messages.value.JArray? { return None; }
    var items := messages.value.items;
    var idx := 0;
    while idx < |items|
      invariant 0 <= idx <= |items|
      invariant RootError(root) == FirstSearchError(items[idx..])
    {
      var kind := GetStr(Some(items[idx]), "type");
      if kind.Some? {
        if CIEquals(kind.value, "FATAL") || CIEquals(kind.value, "ERROR") {
          var text := GetStr(Some(items[idx]), "text");
          return Some(SearchError(kind.value, if text.Some? then text.value else "(no detail)"));
        }
      }
      idx := idx + 1;
    }
    error := None;
  }

  /** The events in the order the callback is invoked. */
  method ExtractEventsFromRoot(root: Json) returns (events: seq<Json>)
    ensures events == RootEvents(root)
  {
    events := [];
    if !root.JObject? { return; }
    var preview := Get(root, "preview");
    if preview.Some? && preview.value.JBool? && preview.value.b { return; }
    var result := Get(root, "result");
    if result.Some? && result.value.JObject? { return [result.value]; }
    var results := Get(root, "results");
    if results.Some? && results.value.JArray? {
      var items := results.value.items;
      var idx := 0;
      while idx < |items|
        invariant 0 <= idx <= |items|
        invariant events == Objects(items[..idx])
      {
        assert items[..idx + 1][..idx] == items[..idx];
        if items[idx].JObject? {
          events := events + [items[idx]];
        }
        idx := idx + 1;
      }
      assert items[..|items|] == items;
      return;
    }
    if Get(root, "_time").Some? || Get(root, "_raw").Some? || Get(root, "message").Some? {
      events := [root];
    }
  }

  method ParseExportLine(lib: Library, line: string) returns (record: Record)
    ensures record == LineRecord(lib, line)
  {
    var length := |line|;
    assert line[..|line|] == line;
    while length > 0 && line[length - 1] == '\r'
      invariant 0 <= length <= |line|
      invariant StripCarriageReturns(line[..length]) == StripCarriageReturns(line)
    {
      assert line[..length][..length - 1] == line[..length - 1];
      length := length - 1;
    }
    if length == 0 { return Events([]); }
    var doc := lib.parse(line[..length]);
    if doc.None? { return Events([]); }
    var error := ThrowIfSearchError(doc.value);
    if error.Some? { return Raises(error.value); }
    var events := ExtractEventsFromRoot(doc.value);
    record := Events(events);
  }

  /** Parsing one line and mapping each of its events in callback order. */
  method ParseAndMapLine(lib: Library, columnIds: seq<nat>, line: string) returns (outcome: LineOutcome)
    ensures outcome == LineRows(lib, columnIds, line)
  {
    var record := ParseExportLine(lib, line);
    if record.Raises? { return Fails(record.error); }
    var rows: seq<Row> := [];
    for i := 0 to |record.events|
      invariant |rows| == i
      invariant forall k :: 0 <= k < i ==> rows[k] == Projected(lib, record.events[k], columnIds)
    {
      var row, _, _ := MapEvent(lib, record.events[i], columnIds);
      rows := rows + [row];
    }
    outcome := Yields(rows);
  }

  //------------------------------------------------------------------ properties of one record

  /** Carriage returns before the newline never matter. */
  lemma {:induction false} CarriageReturnsIgnored(lib: Library, line: string, n: nat)
    ensures LineRecord(lib, line + seq(n, _ => '\r')) == LineRecord(lib, line)
  {
    if n == 0 {
      assert line + seq(0, _ => '\r') == line;
    } else {
      var longer := line + seq(n, _ => '\r');
      assert longer[..|longer| - 1] == line + seq(n - 1, _ => '\r');
      assert longer[|longer| - 1] == '\r';
      CarriageReturnsIgnored(lib, line, n - 1);
    }
  }

  /** Only JSON objects are ever mapped to rows. */
  lemma {:induction false} ObjectsAreObjects(items: seq<Json>)
    ensures forall i :: 0 <= i < |Objects(items)| ==> Objects(items)[i].JObject?
  {
    if items == [] {
    } else {
      ObjectsAreObjects(items[..|items| - 1]);
    }
  }

  lemma EventsAreObjects(root: Json)
    ensures forall i :: 0 <= i < |RootEvents(root)| ==> RootEvents(root)[i].JObject?
  {
    match Get(root, "results")
    case Some(JArray(items)) => ObjectsAreObjects(items);
    case _ =>
  }

  predicate IsSearchError(message: Json) {
    match GetStr(Some(message), "type")
    case Some(kind) => CIEquals(kind, "FATAL") || CIEquals(kind, "ERROR")
    case None => false
  }

  /** The error a message is reported as: its type as written, and its text if it has one. */
  predicate ReportedAs(message: Json, error: SearchError) {
    && GetStr(Some(message), "type") == Some(error.kind)
    && (match GetStr(Some(message), "text") case Some(t) => error.text == t case None => error.text == "(no detail)")
  }

  /** Message `i` is the first ERROR or FATAL one. */
  ghost predicate FirstBad(messages: seq<Json>, i: nat) {
    i < |messages| && IsSearchError(messages[i]) && forall j :: 0 <= j < i ==> !IsSearchError(messages[j])
  }

  /** `error` is the report of the first ERROR or FATAL message, and None when there is none. */
  ghost predicate FirstReported(messages: seq<Json>, error: Option<SearchError>) {
    match error
    case None => forall i :: 0 <= i < |messages| ==> !IsSearchError(messages[i])
    case Some(e) => exists i: nat :: FirstBad(messages, i) && ReportedAs(messages[i], e)
  }

  lemma FirstReportedLater(first: Json, rest: seq<Json>, error: Option<SearchError>)
    requires !IsSearchError(first) && FirstReported(rest, error)
    ensures FirstReported([first] + rest, error)
  {
    var messages := [first] + rest;
    assert forall j :: 0 < j < |messages| ==> messages[j] == rest[j - 1];
    if error.Some? {
      var i: nat :| FirstBad(rest, i) && ReportedAs(rest[i], error.value);
      assert messages[i + 1] == rest[i];
      assert FirstBad(messages, i + 1);
    }
  }

  /** A list of messages raises exactly when one of them is ERROR or FATAL, and then the first such one. */
  lemma {:induction false} RaisesFirstError(messages: seq<Json>)
    ensures FirstReported(messages, FirstSearchError(messages))
  {
    if messages == [] {
    } else {
      if IsSearchError(messages[0]) {
        assert FirstBad(messages, 0);
      } else {
        RaisesFirstError(messages[1..]);
        FirstReportedLater(messages[0], messages[1..], FirstSearchError(messages));
        assert messages == [messages[0]] + messages[1..];
      }
    }
  }

  /** A message is an error exactly when its first `type` member is FATAL or ERROR, in any letter case. */
  lemma SearchErrorExactly(message: Json)
    ensures IsSearchError(message) <==>
            exists s :: FirstMember(message, "type", JString(s)) &&
                        (SameIgnoringCase(CStr(s), "FATAL") || SameIgnoringCase(CStr(s), "ERROR"))
  {
    match GetStr(Some(message), "type")
    case Some(kind) =>
      CIEqualsExactly(kind, "FATAL");
      CIEqualsExactly(kind, "ERROR");
      GetStrExactly(message, "type", kind);
    case None =>
    forall s ensures FirstMember(message, "type", JString(s)) ==> GetStr(Some(message), "type") == Some(CStr(s)) {
      GetStrExactly(message, "type", CStr(s));
    }
  }

  /** Among all messages of the record, the first ERROR or FATAL one is reported as `e`. */
  ghost predicate Reports(root: Json, e: SearchError) {
    exists items: seq<Json>, i: nat ::
      FirstMember(root, "messages", JArray(items)) && FirstBad(items, i) && ReportedAs(items[i], e)
  }

  lemma ReportedOnce(messages: seq<Json>, i: nat, e: SearchError, found: Option<SearchError>)
    requires FirstBad(messages, i) && ReportedAs(messages[i], e) && FirstReported(messages, found)
    ensures found == Some(e)
  {
    if found.Some? {
      var j: nat :| FirstBad(messages, j) && ReportedAs(messages[j], found.value);
      assert i == j;
    }
  }

  lemma RaisedIsReported(root: Json, e: SearchError)
    requires RootRecord(root) == Raises(e)
    ensures Reports(root, e)
  {
    var items := Get(root, "messages").value.items;
    GetExactly(root, "messages", JArray(items));
    RaisesFirstError(items);
    var i: nat :| FirstBad(items, i) && ReportedAs(items[i], e);
  }

  lemma ReportedIsRaised(root: Json, e: SearchError)
    requires Reports(root, e)
    ensures RootRecord(root) == Raises(e)
  {
    var items: seq<Json>, i: nat :|
      FirstMember(root, "messages", JArray(items)) && FirstBad(items, i) && ReportedAs(items[i], e);
    GetExactly(root, "messages", JArray(items));
    RaisesFirstError(items);
    ReportedOnce(items, i, e, FirstSearchError(items));
  }

  /** A record raises `e` exactly when its `messages` array reports `e`, wherever in the array that is. */
  lemma RecordRaisesExactly(root: Json, e: SearchError)
    ensures RootRecord(root) == Raises(e) <==> Reports(root, e)
  {
    if RootRecord(root) == Raises(e) { RaisedIsReported(root, e); }
    if Reports(root, e) { ReportedIsRaised(root, e); }
  }

  /** `text` is the line without the carriage returns at its end. */
  predicate Stripped(line: string, text: string) {
    && text <= line && (text == "" || text[|text| - 1] != '\r')
    && forall i :: |text| <= i < |line| ==> line[i] == '\r'
  }

  lemma {:induction false} StrippedExactly(line: string, text: string)
    ensures Stripped(line, text) <==> text == StripCarriageReturns(line)
  {
    if line != [] && line[|line| - 1] == '\r' {
      var shorter := line[..|line| - 1];
      StrippedExactly(shorter, text);
      if Stripped(line, text) {
        assert |text| < |line|;
        assert forall i :: 0 <= i < |shorter| ==> shorter[i] == line[i];
        assert text <= shorter;
      }
      if Stripped(shorter, text) {
        assert forall i :: 0 <= i < |shorter| ==> shorter[i] == line[i];
      }
    } else {
      assert line == "" || line[|line| - 1] != '\r';
    }
  }

  /** A line fails with `e` exactly when what it says parses to a record that reports `e`. */
  lemma LineFailsExactly(lib: Library, columnIds: seq<nat>, line: string, e: SearchError)
    ensures LineRows(lib, columnIds, line) == Fails(e) <==>
            exists text :: Stripped(line, text) && text != "" && lib.parse(text).Some? && Reports(lib.parse(text).value, e)
  {
    var stripped := StripCarriageReturns(line);
    StrippedExactly(line, stripped);
    if stripped != "" && lib.parse(stripped).Some? {
      RecordRaisesExactly(lib.parse(stripped).value, e);
    }
    forall text | Stripped(line, text) ensures text == stripped {
      StrippedExactly(line, text);
    }
  }

  /** Otherwise it yields one row for each event it carries, in order: none when it is blank or malformed. */
  lemma LineYieldsExactly(lib: Library, columnIds: seq<nat>, line: string, text: string)
    requires Stripped(line, text) && LineRows(lib, columnIds, line).Yields?
    ensures LineRows(lib, columnIds, line).rows ==
            if text == "" || lib.parse(text).None? then [] else Rows(lib, columnIds, RootEvents(lib.parse(text).value))
  {
    StrippedExactly(line, text);
  }

  //------------------------------------------------------------------ which events a record carries

  lemma ObjectsExactly(items: seq<Json>, last: Json)
    ensures Objects([]) == []
    ensures Objects(items + [last]) == Objects(items) + match last case JObject(_) => [last] case _ => []
  {
    assert (items + [last])[..|items|] == items;
  }

  /** The shape of the record: the first of these that fits decides. */
  lemma EventsExactly(root: Json)
    ensures !root.JObject? || FirstMember(root, "preview", JBool(true)) ==> RootEvents(root) == []
    ensures root.JObject? && !FirstMember(root, "preview", JBool(true)) ==>
              && (forall r: Json :: r.JObject? && FirstMember(root, "result", r) ==> RootEvents(root) == [r])
              && ((forall r: Json :: FirstMember(root, "result", r) ==> !r.JObject?) ==>
                    && (forall items :: FirstMember(root, "results", JArray(items)) ==> RootEvents(root) == Objects(items))
                    && ((forall items :: !FirstMember(root, "results", JArray(items))) ==> RootEvents(root) == FlatEvent(root)))
  {
    GetExactly(root, "preview", JBool(true));
    forall r ensures FirstMember(root, "result", r) <==> Get(root, "result") == Some(r) {
      GetExactly(root, "result", r);
    }
    forall r ensures FirstMember(root, "results", r) <==> Get(root, "results") == Some(r) {
      GetExactly(root, "results", r);
    }
    if root.JObject? { FlatExactly(root); }
  }

  /** A flat event carries one of three fields. */
  function FlatEvent(root: Json): seq<Json>
    requires root.JObject?
  {
    if exists i :: 0 <= i < |root.members| && root.members[i].0 in {"_time", "_raw", "message"} then [root] else []
  }

  lemma FlatExactly(root: Json)
    requires root.JObject?
    ensures FlatEvent(root) ==
            if Get(root, "_time").Some? || Get(root, "_raw").Some? || Get(root, "message").Some? then [root] else []
  {
    GetExactly(root, "_time", JNull);
    GetExactly(root, "_raw", JNull);
    GetExactly(root, "message", JNull);
  }

  //------------------------------------------------------------------ the export shapes agree

  /** `{"preview":false,"result":e}` */
  function StreamedShape(event: Json): Json {
    JObject([("preview", JBool(false)), ("result", event)])
  }

  /** `{"results":[...]}` */
  function BufferedShape(events: seq<Json>): Json {
    JObject([("results", JArray(events))])
  }

  function AllRecords(roots: seq<Json>): seq<Json> {
    if roots == [] then []
    else
      AllRecords(roots[..|roots| - 1]) +
      match RootRecord(roots[|roots| - 1]) case Events(es) => es case Raises(_) => []
  }

  lemma GetOfOne(m: Member, key: string)
    ensures Get(JObject([m]), key) == if m.0 == key then Some(m.1) else None
  {
    assert [m][1..] == [];
    assert GetMember([], key) == None;
  }

  lemma GetOfTwo(m: Member, n: Member, key: string)
    ensures Get(JObject([m, n]), key) == if m.0 == key then Some(m.1) else if n.0 == key then Some(n.1) else None
  {
    assert [m, n][1..] == [n];
    GetOfOne(n, key);
  }

  lemma FieldNamesDiffer()
    ensures "messages" != "preview" && "messages" != "result" && "messages" != "results"
    ensures "preview" != "result" && "preview" != "results" && "result" != "results"
  {
  }

  lemma StreamedShapeRecord(event: Json)
    requires event.JObject?
    ensures RootRecord(StreamedShape(event)) == Events([event])
  {
    FieldNamesDiffer();
    var preview, result := ("preview", JBool(false)), ("result", event);
    GetOfTwo(preview, result, "messages");
    GetOfTwo(preview, result, "preview");
    GetOfTwo(preview, result, "result");
  }

  lemma BufferedShapeRecord(events: seq<Json>)
    ensures RootRecord(BufferedShape(events)) == Events(Objects(events))
  {
    FieldNamesDiffer();
    var results := ("results", JArray(events));
    GetOfOne(results, "messages");
    GetOfOne(results, "preview");
    GetOfOne(results, "result");
    GetOfOne(results, "results");
  }

  lemma {:induction false} ObjectsOfObjects(events: seq<Json>)
    requires forall i :: 0 <= i < |events| ==> events[i].JObject?
    ensures Objects(events) == events
  {
    if events == [] {
    } else {
      ObjectsOfObjects(events[..|events| - 1]);
    }
  }

  /** The streamed records of the events, one each. */
  function StreamedShapes(events: seq<Json>): (roots: seq<Json>)
    ensures |roots| == |events|
  {
    seq(|events|, i requires 0 <= i < |events| => StreamedShape(events[i]))
  }

  lemma {:induction false} StreamedShapesRecords(events: seq<Json>)
    requires forall i :: 0 <= i < |events| ==> events[i].JObject?
    ensures AllRecords(StreamedShapes(events)) == events
  {
    if events == [] {
    } else {
      var n := |events| - 1;
      StreamedShapesRecords(events[..n]);
      assert StreamedShapes(events)[..n] == StreamedShapes(events[..n]);
      StreamedShapeRecord(events[n]);
    }
  }

  /** One streamed record per event, or all events in one buffered record: the same events in order. */
  lemma ExportShapesAgree(events: seq<Json>)
    requires forall i :: 0 <= i < |events| ==> events[i].JObject?
    ensures AllRecords(StreamedShapes(events)) == events
    ensures RootRecord(BufferedShape(events)) == Events(events)
  {
    StreamedShapesRecords(events);
    BufferedShapeRecord(events);
    ObjectsOfObjects(events);
  }

  //------------------------------------------------------------------ lines that carry nothing

  /** A preview object, or an object with none of the event-bearing fields. */
  predicate ControlOnly(root: Json) {
    || !root.JObject?
    || Get(root, "preview") == Some(JBool(true))
    || (&& !(Get(root, "result").Some? && Get(root, "result").value.JObject?)
        && !(Get(root, "results").Some? && Get(root, "results").value.JArray?)
        && Get(root, "_time").None? && Get(root, "_raw").None? && Get(root, "message").None?)
  }

  /** A `results` array without a single object in it. */
  predicate EmptyResults(root: Json) {
    && root.JObject?
    && !(Get(root, "result").Some? && Get(root, "result").value.JObject?)
    && Get(root, "results").Some? && Get(root, "results").value.JArray?
    && forall i :: 0 <= i < |Get(root, "results").value.items| ==> !Get(root, "results").value.items[i].JObject?
  }

  lemma {:induction false} NoObjects(items: seq<Json>)
    ensures Objects(items) == [] <==> forall i :: 0 <= i < |items| ==> !items[i].JObject?
  {
    if items == [] {
    } else {
      var front, last := items[..|items| - 1], items[|items| - 1];
      NoObjects(front);
      assert items == front + [last];
      assert Objects(items) == [] <==> Objects(front) == [] && !last.JObject?;
      NoneOneMore(front, last);
    }
  }

  lemma NoneOneMore(front: seq<Json>, last: Json)
    ensures (forall i :: 0 <= i < |front + [last]| ==> !(front + [last])[i].JObject?) <==>
            !last.JObject? && forall i :: 0 <= i < |front| ==> !front[i].JObject?
  {
    var all := front + [last];
    assert all[|front|] == last;
    assert forall i :: 0 <= i < |front| ==> all[i] == front[i];
  }

  /** Exactly which lines contribute nothing at all: neither a row nor an error. */
  lemma SilentLineExactly(lib: Library, line: string)
    ensures LineRecord(lib, line) == Events([]) <==>
            var text := StripCarriageReturns(line);
            || text == ""
            || lib.parse(text).None?
            || (RootError(lib.parse(text).value).None?
                && (ControlOnly(lib.parse(text).value) || EmptyResults(lib.parse(text).value)))
  {
    var doc := lib.parse(StripCarriageReturns(line));
    if doc.Some? && Get(doc.value, "results").Some? && Get(doc.value, "results").value.JArray? {
      NoObjects(Get(doc.value, "results").value.items);
    }
  }
}
