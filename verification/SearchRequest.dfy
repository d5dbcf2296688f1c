/** Building the export request: query normalisation, form encoding, and the catalog's index restriction. */
module SearchRequest {
  import opened Common
  import opened Text

  //------------------------------------------------------------------ query normalisation

  /** Prepends `search ` unless the query already begins with a Splunk command. */
  function NormalizeSearchQuery(query: string): string {
    var trimmed := Trim(query);
    if trimmed == "" then "search *"
    else if trimmed[0] == '|' then trimmed
    else if "search " <= Lower(trimmed) then trimmed
    else "search " + trimmed
  }

  lemma LowerPrefix(s: string)
    ensures "search " <= Lower("search " + s)
  {
  }

  lemma SearchPrefixIsTight(s: string)
    requires Tight(s) && s != ""
    ensures Tight("search " + s) && "search " + s != ""
    ensures ("search " + s)[0] == 's'
  {
  }

  /** Normalising is idempotent on every input, and its result is a command. */
  lemma NormalizeIsIdempotent(query: string)
    ensures var q := NormalizeSearchQuery(query);
            && NormalizeSearchQuery(q) == q
            && q != "" && (q[0] == '|' || "search " <= Lower(q))
  {
    var trimmed := Trim(query);
    TrimIsTight(query);
    if trimmed == "" {
      assert "search *" == "search " + "*";
      Normalized("*");
    } else if trimmed[0] == '|' || "search " <= Lower(trimmed) {
      TrimIsTight(trimmed);
    } else {
      Normalized(trimmed);
    }
  }

  lemma Normalized(s: string)
    requires Tight(s) && s != ""
    ensures NormalizeSearchQuery("search " + s) == "search " + s
    ensures "search " <= Lower("search " + s)
  {
    SearchPrefixIsTight(s);
    TrimIsTight("search " + s);
    LowerPrefix(s);
  }

  /** The seven bytes of the search command, in any letter case. */
  predicate BeginsWithSearch(t: string) {
    && |t| >= 7
    && (t[0] == 's' || t[0] == 'S') && (t[1] == 'e' || t[1] == 'E') && (t[2] == 'a' || t[2] == 'A')
    && (t[3] == 'r' || t[3] == 'R') && (t[4] == 'c' || t[4] == 'C') && (t[5] == 'h' || t[5] == 'H')
    && t[6] == ' '
  }

  /** `r` is what is sent for `query`: a command as it stands, anything else as the body of a search. */
  ghost predicate Normalizes(query: string, r: string) {
    exists t :: Trimmed(query, t) &&
      r == if t == "" then "search *" else if t[0] == '|' || BeginsWithSearch(t) then t else "search " + t
  }

  lemma SearchPrefixExactly(t: string)
    ensures "search " <= Lower(t) <==> BeginsWithSearch(t)
  {
    if |t| >= 7 {
      var l := Lower(t);
      assert "search " <= l <==> l[0] == 's' && l[1] == 'e' && l[2] == 'a' && l[3] == 'r' && l[4] == 'c' && l[5] == 'h' && l[6] == ' ';
    }
  }

  /** Normalising does exactly that, for every query. */
  lemma NormalizesExactly(query: string, r: string)
    ensures Normalizes(query, r) <==> r == NormalizeSearchQuery(query)
  {
    TrimTrims(query);
    SearchPrefixExactly(Trim(query));
    if Normalizes(query, r) {
      var t :| Trimmed(query, t) &&
        r == if t == "" then "search *" else if t[0] == '|' || BeginsWithSearch(t) then t else "search " + t;
      TrimmedOnce(query, t, Trim(query));
    }
  }

  //------------------------------------------------------------------ percent encoding

  /** A C++ `char` is one byte. */
  predicate IsBytes(s: string) {
    forall i :: 0 <= i < |s| ==> s[i] as int < 256
  }

  predicate Unreserved(c: char) {
    'a' <= c <= 'z' || 'A' <= c <= 'Z' || '0' <= c <= '9' || c == '-' || c == '_' || c == '.' || c == '~'
  }

  function HexDigit(n: nat): (c: char)
    requires n < 16
    ensures Unreserved(c) && c != '%'
    ensures HexValue(c) == Some(n)
  {
    if n < 10 then (n + '0' as int) as char else (n - 10 + 'A' as int) as char
  }

  function HexValue(c: char): Option<nat> {
    if '0' <= c <= '9' then Some(c as int - '0' as int)
    else if 'A' <= c <= 'F' then Some(c as int - 'A' as int + 10)
    else if 'a' <= c <= 'f' then Some(c as int - 'a' as int + 10)
    else None
  }

  function EncodeChar(c: char): string
    requires c as int < 256
  {
    if Unreserved(c) then [c] else ['%', HexDigit(c as int / 16), HexDigit(c as int % 16)]
  }

  /** `URLEncode`: percent-encoding as in section 2.1 of RFC 3986, everything but unreserved characters. */
  function URLEncode(s: string): string
    requires IsBytes(s)
  {
    if s == "" then "" else EncodeChar(s[0]) + URLEncode(s[1..])
  }

  /** How a server decodes a form value: `+` stands for a space. */
  function URLDecode(s: string): Option<string>
    decreases |s|
  {
    if s == "" then Some("")
    else if s[0] != '%' then
      match URLDecode(s[1..]) case Some(rest) => Some([if s[0] == '+' then ' ' else s[0]] + rest) case None => None
    else if |s| < 3 then None
    else
      match (HexValue(s[1]), HexValue(s[2]), URLDecode(s[3..]))
      case (Some(hi), Some(lo), Some(rest)) => Some([(hi * 16 + lo) as char] + rest)
      case _ => None
  }

  lemma {:induction false} DecodeEncode(s: string)
    requires IsBytes(s)
    ensures URLDecode(URLEncode(s)) == Some(s)
  {
    if s == "" {
    } else {
      DecodeEncode(s[1..]);
      DecodeFirst(s[0], URLEncode(s[1..]), s[1..]);
      assert [s[0]] + s[1..] == s;
    }
  }

  lemma DecodeFirst(c: char, rest: string, more: string)
    requires c as int < 256 && URLDecode(rest) == Some(more)
    ensures URLDecode(EncodeChar(c) + rest) == Some([c] + more)
  {
    var e := EncodeChar(c) + rest;
    if Unreserved(c) {
      assert e[0] == c && e[1..] == rest;
    } else {
      var hi, lo := c as int / 16, c as int % 16;
      assert e[0] == '%' && e[1] == HexDigit(hi) && e[2] == HexDigit(lo) && e[3..] == rest;
      assert (hi * 16 + lo) as char == c;
    }
  }

  const DECIMAL_DIGITS := "0123456789"

  const HEX_DIGITS := "0123456789ABCDEF"

  /** A letter, a digit, or one of - . _ ~ (section 2.3 of RFC 3986). */
  predicate InUnreservedSet(c: char) {
    || (exists k :: 0 <= k < 26 && (c == UPPER_CASE[k] || c == LOWER_CASE[k]))
    || (exists k :: 0 <= k < 10 && c == DECIMAL_DIGITS[k])
    || c == '-' || c == '.' || c == '_' || c == '~'
  }

  lemma UnreservedExactly(c: char)
    ensures Unreserved(c) <==> InUnreservedSet(c)
  {
    forall k | 0 <= k < 26 ensures UPPER_CASE[k] as int == 65 + k && LOWER_CASE[k] as int == 97 + k {
      Alphabet(k);
    }
    DecimalDigits();
    if 'A' <= c <= 'Z' { assert c == UPPER_CASE[c as int - 65]; }
    if 'a' <= c <= 'z' { assert c == LOWER_CASE[c as int - 97]; }
    if '0' <= c <= '9' { assert c == DECIMAL_DIGITS[c as int - 48]; }
  }

  lemma DecimalDigits()
    ensures forall k :: 0 <= k < 10 ==> DECIMAL_DIGITS[k] as int == 48 + k
  {
  }

  /** `std::to_string`, digit by digit. */
  lemma DecimalExactly(n: nat)
    ensures Decimal(n) == (if n < 10 then "" else Decimal(n / 10)) + [DECIMAL_DIGITS[n % 10]]
  {
    DecimalDigits();
  }

  lemma HexDigitExactly(n: nat)
    requires n < 16
    ensures HexDigit(n) == HEX_DIGITS[n]
  {
  }

  /** The encoding, byte by byte: unreserved bytes stay, all others become `%` and two upper-case digits. */
  lemma {:induction false} EncodeExactly(front: string, c: char)
    requires IsBytes(front) && c as int < 256
    ensures URLEncode("") == ""
    ensures URLEncode(front + [c]) == URLEncode(front) +
            if InUnreservedSet(c) then [c] else ['%', HEX_DIGITS[c as int / 16], HEX_DIGITS[c as int % 16]]
  {
    if front == "" {
      UnreservedExactly(c);
      HexDigitExactly(c as int / 16);
      HexDigitExactly(c as int % 16);
      assert front + [c] == [c] && [c][1..] == "";
    } else {
      EncodeExactly(front[1..], c);
      assert (front + [c])[1..] == front[1..] + [c];
      assert URLEncode(front + [c]) == EncodeChar(front[0]) + URLEncode(front[1..] + [c]);
    }
  }

  //------------------------------------------------------------------ the form body

  predicate Free(s: string, c: char) {
    forall i :: 0 <= i < |s| ==> s[i] != c
  }

  lemma {:induction false} EncodedIsFree(s: string)
    requires IsBytes(s)
    ensures Free(URLEncode(s), '&') && Free(URLEncode(s), '=')
  {
    if s == "" {
    } else {
      EncodedIsFree(s[1..]);
    }
  }

  /** One `name=value` field of a form, the value still encoded. */
  datatype Field = Field(name: string, value: string)

  function Write(field: Field): string {
    field.name + "=" + field.value
  }

  /** Fields separated by `&`. */
  function WriteForm(fields: seq<Field>): string
    requires fields != []
  {
    if |fields| == 1 then Write(fields[0])
    else WriteForm(fields[..|fields| - 1]) + "&" + Write(fields[|fields| - 1])
  }

  /** Appends `&name=value` to a form. */
  method AddField(body: string, ghost fields: seq<Field>, name: string, value: string) returns (longer: string)
    requires fields != [] && body == WriteForm(fields)
    ensures longer == WriteForm(fields + [Field(name, value)])
  {
    AppendField(fields, Field(name, value));
    longer := body + "&" + (name + "=" + value);
  }

  method BuildExportBody(query: string, earliest: string, latest: string, maxRows: nat) returns (body: string)
    requires IsBytes(query) && IsBytes(earliest) && IsBytes(latest)
    ensures IsBytes(NormalizeSearchQuery(query))
    ensures body == WriteForm(ExportFields(query, earliest, latest, maxRows))
  {
    NormalizedIsBytes(query);
    var search := URLEncode(NormalizeSearchQuery(query));
    ghost var fields := [Field("search", search)];
    body := "search" + "=" + search;
    body := AddField(body, fields, "earliest_time", URLEncode(earliest));
    fields := fields + [Field("earliest_time", URLEncode(earliest))];
    body := AddField(body, fields, "latest_time", URLEncode(latest));
    fields := fields + [Field("latest_time", URLEncode(latest))];
    body := AddField(body, fields, "output_mode", "json");
    fields := fields + [Field("output_mode", "json")];
    if maxRows > 0 {
      body := AddField(body, fields, "count", Decimal(maxRows));
      fields := fields + [Field("count", Decimal(maxRows))];
    }
    assert fields == ExportFields(query, earliest, latest, maxRows);
  }

  lemma {:induction false} TrimLeftIsBytes(s: string)
    requires IsBytes(s)
    ensures IsBytes(TrimLeft(s))
  {
    if s != "" && IsSpace(s[0]) { TrimLeftIsBytes(s[1..]); }
  }

  lemma {:induction false} TrimRightIsBytes(s: string)
    requires IsBytes(s)
    ensures IsBytes(TrimRight(s))
  {
    if s != "" && IsSpace(s[|s| - 1]) { TrimRightIsBytes(s[..|s| - 1]); }
  }

  lemma NormalizedIsBytes(query: string)
    requires IsBytes(query)
    ensures IsBytes(NormalizeSearchQuery(query))
  {
    TrimLeftIsBytes(query);
    TrimRightIsBytes(TrimLeft(query));
  }

  /** The fields of the export request; `count` only when capping. */
  function ExportFields(query: string, earliest: string, latest: string, maxRows: nat): (fields: seq<Field>)
    requires IsBytes(NormalizeSearchQuery(query)) && IsBytes(earliest) && IsBytes(latest)
    ensures fields != []
  {
    [Field("search", URLEncode(NormalizeSearchQuery(query))),
     Field("earliest_time", URLEncode(earliest)),
     Field("latest_time", URLEncode(latest)),
     Field("output_mode", "json")]
    + if maxRows > 0 then [Field("count", Decimal(maxRows))] else []
  }

  lemma AppendField(fields: seq<Field>, field: Field)
    requires fields != []
    ensures WriteForm(fields + [field]) == WriteForm(fields) + "&" + Write(field)
  {
  }

  //------------------------------------------------------------------ reading a form back

  /** Position of the first `c`, or |s|. */
  function IndexOf(s: string, c: char): (at: nat)
    ensures at <= |s| && Free(s[..at], c)
    ensures at < |s| ==> s[at] == c
  {
    if s == "" || s[0] == c then 0
    else
      var at := 1 + IndexOf(s[1..], c);
      assert forall i :: 0 < i < at ==> s[i] == s[1..][i - 1];
      at
  }

  /** What a server sees: the fields between `&`s, cut at the first `=`, with decoded values. */
  function ReadField(s: string): Option<(string, string)> {
    var at := IndexOf(s, '=');
    if at == |s| then None
    else match URLDecode(s[at + 1..]) case Some(v) => Some((s[..at], v)) case None => None
  }

  function ReadForm(s: string): seq<Option<(string, string)>>
    decreases |s|
  {
    var at := IndexOf(s, '&');
    if at == |s| then [ReadField(s)] else [ReadField(s[..at])] + ReadForm(s[at + 1..])
  }

  lemma IndexOfIs(s: string, c: char, at: nat)
    requires at <= |s| && (forall i :: 0 <= i < at ==> s[i] != c)
    requires at < |s| ==> s[at] == c
    ensures IndexOf(s, c) == at
  {
  }

  predicate Sendable(field: Field) {
    && Free(field.name, '=') && Free(field.name, '&') && Free(field.value, '&')
  }

  lemma ReadWritten(field: Field)
    requires Sendable(field)
    ensures ReadField(Write(field)) ==
            match URLDecode(field.value) case Some(v) => Some((field.name, v)) case None => None
    ensures Free(Write(field), '&')
  {
    var s := Write(field);
    IndexOfIs(s, '=', |field.name|);
    assert s[..|field.name|] == field.name && s[|field.name| + 1..] == field.value;
  }

  lemma ReadFirst(first: string, rest: string)
    requires Free(first, '&')
    ensures ReadForm(first) == [ReadField(first)]
    ensures ReadForm(first + "&" + rest) == [ReadField(first)] + ReadForm(rest)
  {
    IndexOfIs(first, '&', |first|);
    var s := first + "&" + rest;
    IndexOfIs(s, '&', |first|);
    assert s[..|first|] == first && s[|first| + 1..] == rest;
  }

  lemma {:induction false} ReadAppended(front: string, last: string)
    requires Free(last, '&')
    ensures ReadForm(front + "&" + last) == ReadForm(front) + [ReadField(last)]
    decreases |front|
  {
    ReadFirst(last, "");
    var at := IndexOf(front, '&');
    if at == |front| {
      assert front[..at] == front;
      ReadFirst(front, last);
    } else {
      assert front == front[..at] + "&" + front[at + 1..];
      ReadAppended(front[at + 1..], last);
      ReadAppendedStep(front, front[..at], front[at + 1..], last);
    }
  }

  lemma ReadAppendedStep(front: string, head: string, more: string, last: string)
    requires Free(head, '&') && front == head + "&" + more
    requires ReadForm(more + "&" + last) == ReadForm(more) + [ReadField(last)]
    ensures ReadForm(front + "&" + last) == ReadForm(front) + [ReadField(last)]
  {
    Regroup(head + "&", more, "&" + last);
    Regroup(head + "&" + more, "&", last);
    Regroup(more, "&", last);
    ReadFirst(head, more + "&" + last);
    ReadFirst(head, more);
    Regroup([ReadField(head)], ReadForm(more), [ReadField(last)]);
  }

  lemma Regroup<T>(a: seq<T>, b: seq<T>, c: seq<T>)
    ensures a + b + c == a + (b + c)
  {
  }

  function Readings(fields: seq<Field>): seq<Option<(string, string)>> {
    if fields == [] then []
    else Readings(fields[..|fields| - 1]) + [ReadField(Write(fields[|fields| - 1]))]
  }

  lemma {:induction false} ReadWriteForm(fields: seq<Field>)
    requires fields != [] && forall i :: 0 <= i < |fields| ==> Sendable(fields[i])
    ensures ReadForm(WriteForm(fields)) == Readings(fields)
  {
    var n := |fields| - 1;
    var last := Write(fields[n]);
    ReadWritten(fields[n]);
    if n == 0 {
      assert fields[..0] == [];
      ReadFirst(last, "");
    } else {
      ReadWriteForm(fields[..n]);
      ReadAppended(WriteForm(fields[..n]), last);
    }
  }

  /** What the request asks for, as the server reads it. */
  function Asked(search: string, earliest: string, latest: string, maxRows: nat): seq<Option<(string, string)>> {
    [Some(("search", search)),
     Some(("earliest_time", earliest)),
     Some(("latest_time", latest)),
     Some(("output_mode", "json"))]
    + if maxRows > 0 then [Some(("count", Decimal(maxRows)))] else []
  }

  lemma {:induction false} PlainDecodes(s: string)
    requires Free(s, '%') && Free(s, '+')
    ensures URLDecode(s) == Some(s)
  {
    if s == "" {
    } else {
      PlainDecodes(s[1..]);
      assert [s[0]] + s[1..] == s;
    }
  }

  lemma FieldReads(name: string, text: string)
    requires Free(name, '=') && Free(name, '&') && IsBytes(text)
    ensures Sendable(Field(name, URLEncode(text)))
    ensures ReadField(Write(Field(name, URLEncode(text)))) == Some((name, text))
  {
    EncodedIsFree(text);
    DecodeEncode(text);
    ReadWritten(Field(name, URLEncode(text)));
  }

  lemma PlainFieldReads(name: string, text: string)
    requires Free(name, '=') && Free(name, '&') && Free(text, '&') && Free(text, '%') && Free(text, '+')
    ensures Sendable(Field(name, text))
    ensures ReadField(Write(Field(name, text))) == Some((name, text))
  {
    PlainDecodes(text);
    ReadWritten(Field(name, text));
  }

  lemma {:induction false} ReadingsPointwise(f: seq<Field>)
    ensures |Readings(f)| == |f| && forall i :: 0 <= i < |f| ==> Readings(f)[i] == ReadField(Write(f[i]))
  {
    if f == [] {
    } else {
      ReadingsPointwise(f[..|f| - 1]);
    }
  }

  lemma FieldNamesAreFree()
    ensures Free("search", '=') && Free("search", '&')
    ensures Free("earliest_time", '=') && Free("earliest_time", '&')
    ensures Free("latest_time", '=') && Free("latest_time", '&')
    ensures Free("output_mode", '=') && Free("output_mode", '&')
    ensures Free("count", '=') && Free("count", '&')
    ensures Free("json", '&') && Free("json", '%') && Free("json", '+')
  {
  }

  /** The field is sendable and reads as `pair`. */
  predicate ReadsAs(f: Field, pair: Option<(string, string)>) {
    Sendable(f) && ReadField(Write(f)) == pair
  }

  predicate AllReadAs(fields: seq<Field>, pairs: seq<Option<(string, string)>>) {
    |fields| == |pairs| && forall i :: 0 <= i < |fields| ==> ReadsAs(fields[i], pairs[i])
  }

  lemma OptionalRead(fields: seq<Field>, pairs: seq<Option<(string, string)>>, f: Field, pair: Option<(string, string)>, sent: bool)
    requires AllReadAs(fields, pairs) && ReadsAs(f, pair)
    ensures AllReadAs(fields + (if sent then [f] else []), pairs + (if sent then [pair] else []))
  {
  }

  lemma FourRead(f: Field, g: Field, h: Field, k: Field, a: Option<(string, string)>, b: Option<(string, string)>,
                 c: Option<(string, string)>, d: Option<(string, string)>)
    requires ReadsAs(f, a) && ReadsAs(g, b) && ReadsAs(h, c) && ReadsAs(k, d)
    ensures AllReadAs([f, g, h, k], [a, b, c, d])
  {
  }

  lemma FixedFieldsRead(search: string, earliest: string, latest: string)
    requires IsBytes(search) && IsBytes(earliest) && IsBytes(latest)
    ensures AllReadAs([Field("search", URLEncode(search)), Field("earliest_time", URLEncode(earliest)),
                       Field("latest_time", URLEncode(latest)), Field("output_mode", "json")],
                      [Some(("search", search)), Some(("earliest_time", earliest)),
                       Some(("latest_time", latest)), Some(("output_mode", "json"))])
  {
    SearchFieldReads(search);
    EarliestFieldReads(earliest);
    LatestFieldReads(latest);
    ModeFieldReads();
    FourRead(Field("search", URLEncode(search)), Field("earliest_time", URLEncode(earliest)),
             Field("latest_time", URLEncode(latest)), Field("output_mode", "json"),
             Some(("search", search)), Some(("earliest_time", earliest)),
             Some(("latest_time", latest)), Some(("output_mode", "json")));
  }

  lemma FieldsRead(query: string, earliest: string, latest: string, maxRows: nat)
    requires IsBytes(NormalizeSearchQuery(query)) && IsBytes(earliest) && IsBytes(latest)
    ensures AllReadAs(ExportFields(query, earliest, latest, maxRows), Asked(NormalizeSearchQuery(query), earliest, latest, maxRows))
  {
    var search := NormalizeSearchQuery(query);
    FixedFieldsRead(search, earliest, latest);
    CountFieldReads(maxRows);
    OptionalRead([Field("search", URLEncode(search)), Field("earliest_time", URLEncode(earliest)),
                  Field("latest_time", URLEncode(latest)), Field("output_mode", "json")],
                 [Some(("search", search)), Some(("earliest_time", earliest)),
                  Some(("latest_time", latest)), Some(("output_mode", "json"))],
                 Field("count", Decimal(maxRows)), Some(("count", Decimal(maxRows))), maxRows > 0);
  }

  lemma SearchFieldReads(text: string)
    requires IsBytes(text)
    ensures ReadsAs(Field("search", URLEncode(text)), Some(("search", text)))
  {
    FieldNamesAreFree();
    FieldReads("search", text);
  }

  lemma EarliestFieldReads(text: string)
    requires IsBytes(text)
    ensures ReadsAs(Field("earliest_time", URLEncode(text)), Some(("earliest_time", text)))
  {
    FieldNamesAreFree();
    FieldReads("earliest_time", text);
  }

  lemma LatestFieldReads(text: string)
    requires IsBytes(text)
    ensures ReadsAs(Field("latest_time", URLEncode(text)), Some(("latest_time", text)))
  {
    FieldNamesAreFree();
    FieldReads("latest_time", text);
  }

  lemma ModeFieldReads()
    ensures ReadsAs(Field("output_mode", "json"), Some(("output_mode", "json")))
  {
    FieldNamesAreFree();
    PlainFieldReads("output_mode", "json");
  }

  lemma CountFieldReads(maxRows: nat)
    ensures ReadsAs(Field("count", Decimal(maxRows)), Some(("count", Decimal(maxRows))))
  {
    FieldNamesAreFree();
    PlainFieldReads("count", Decimal(maxRows));
  }

  /** The server reads back exactly what was asked: the body loses and confuses nothing. */
  lemma FormDecodesToInputs(query: string, earliest: string, latest: string, maxRows: nat)
    requires IsBytes(NormalizeSearchQuery(query)) && IsBytes(earliest) && IsBytes(latest)
    ensures forall search :: Normalizes(query, search) ==>
              ReadForm(WriteForm(ExportFields(query, earliest, latest, maxRows))) == Asked(search, earliest, latest, maxRows)
    ensures exists search :: Normalizes(query, search)
    ensures DigitsValue(Decimal(maxRows)) == maxRows
  {
    var search := NormalizeSearchQuery(query);
    forall r ensures Normalizes(query, r) <==> r == search {
      NormalizesExactly(query, r);
    }
    assert Normalizes(query, search);
    FormReads(query, earliest, latest, maxRows);
    DecimalValue(maxRows);
  }

  lemma FormReads(query: string, earliest: string, latest: string, maxRows: nat)
    requires IsBytes(NormalizeSearchQuery(query)) && IsBytes(earliest) && IsBytes(latest)
    ensures ReadForm(WriteForm(ExportFields(query, earliest, latest, maxRows))) ==
            Asked(NormalizeSearchQuery(query), earliest, latest, maxRows)
  {
    var f := ExportFields(query, earliest, latest, maxRows);
    var asked := Asked(NormalizeSearchQuery(query), earliest, latest, maxRows);
    FieldsRead(query, earliest, latest, maxRows);
    assert forall i :: 0 <= i < |f| ==> ReadsAs(f[i], asked[i]);
    ReadWriteForm(f);
    ReadingsPointwise(f);
    assert Readings(f) == asked;
  }

  //------------------------------------------------------------------ the index restriction

  function EscapeChar(ch: char): string {
    if ch == '\\' || ch == '"' then ['\\', ch] else [ch]
  }

  function Escape(s: string): string {
    if s == "" then "" else Escape(s[..|s| - 1]) + EscapeChar(s[|s| - 1])
  }

  function IndexQuery(name: string): string {
    "index=\"" + Escape(name) + "\""
  }

  method BuildIndexQuery(indexName: string) returns (query: string)
    ensures query == IndexQuery(indexName)
  {
    var escaped := "";
    for i := 0 to |indexName|
      invariant escaped == Escape(indexName[..i])
    {
      var ch := indexName[i];
      assert indexName[..i + 1][..i] == indexName[..i];
      if ch == '\\' || ch == '"' {
        escaped := escaped + "\\";
      }
      escaped := escaped + [ch];
    }
    assert indexName[..|indexName|] == indexName;
    query := "index=\"" + escaped + "\"";
  }

  /** The text of a restriction, byte by byte: only backslashes and quotes get a backslash in front. */
  lemma EscapeExactly(front: string, ch: char)
    ensures Escape("") == ""
    ensures Escape(front + [ch]) == Escape(front) + if ch == '\\' || ch == '"' then ['\\', ch] else [ch]
    ensures IndexQuery(front) == "index=\"" + Escape(front) + "\""
  {
    assert (front + [ch])[..|front|] == front;
  }

  /** A string literal read up to its closing quote, with backslash escapes: its value and what follows. */
  datatype Literal = Unclosed | Literal(value: string, rest: string)

  function ScanLiteral(s: string): Literal
    decreases |s|
  {
    if s == "" then Unclosed
    else if s[0] == '"' then Literal("", s[1..])
    else if s[0] == '\\' then
      if |s| < 2 then Unclosed
      else match ScanLiteral(s[2..]) case Literal(v, rest) => Literal([s[1]] + v, rest) case Unclosed => Unclosed
    else match ScanLiteral(s[1..]) case Literal(v, rest) => Literal([s[0]] + v, rest) case Unclosed => Unclosed
  }

  lemma ScanEscapedChar(ch: char, more: string)
    ensures ScanLiteral(EscapeChar(ch) + more) == Before([ch], ScanLiteral(more))
  {
  }

  lemma {:induction false} ScanEscaped(name: string, more: string)
    ensures ScanLiteral(Escape(name) + more) == Before(name, ScanLiteral(more))
  {
    if name == "" {
      assert Escape(name) + more == more;
      match ScanLiteral(more)
      case Literal(v, _) => assert name + v == v;
      case Unclosed =>
    } else {
      var n := |name| - 1;
      ScanEscaped(name[..n], EscapeChar(name[n]) + more);
      ScanEscapedStep(name[..n], name[n], more);
      assert name == name[..n] + [name[n]];
    }
  }

  /** The value a literal gets when `front` is read before it. */
  function Before(front: string, l: Literal): Literal {
    match l case Literal(v, rest) => Literal(front + v, rest) case Unclosed => Unclosed
  }

  lemma ScanEscapedStep(front: string, ch: char, more: string)
    requires ScanLiteral(Escape(front) + (EscapeChar(ch) + more)) == Before(front, ScanLiteral(EscapeChar(ch) + more))
    ensures ScanLiteral(Escape(front) + EscapeChar(ch) + more) == Before(front + [ch], ScanLiteral(more))
  {
    ScanEscapedChar(ch, more);
    Regroup(Escape(front), EscapeChar(ch), more);
    BeforeTwice(front, [ch], ScanLiteral(more));
  }

  lemma BeforeTwice(a: string, b: string, l: Literal)
    ensures Before(a, Before(b, l)) == Before(a + b, l)
  {
    if l.Literal? { Regroup(a, b, l.value); }
  }

  const INDEX_PREFIX := "index=\""

  /** Reading the literal of the restriction consumes the whole text and returns the index name. */
  lemma IndexQueryRoundTrip(name: string)
    ensures INDEX_PREFIX <= IndexQuery(name)
    ensures ScanLiteral(IndexQuery(name)[|INDEX_PREFIX|..]) == Literal(name, "")
  {
    var q := IndexQuery(name);
    assert q[|INDEX_PREFIX|..] == Escape(name) + "\"";
    ScanEscaped(name, "\"");
    assert "\""[1..] == "";
    assert name + "" == name;
  }

  /** Distinct index names give distinct restrictions. */
  lemma IndexQueryInjective(a: string, b: string)
    requires IndexQuery(a) == IndexQuery(b)
    ensures a == b
  {
    IndexQueryRoundTrip(a);
    IndexQueryRoundTrip(b);
  }

  /** Normalisation only puts `search ` in front of a restriction. */
  lemma IndexQueryNormalized(name: string)
    ensures NormalizeSearchQuery(IndexQuery(name)) == "search " + IndexQuery(name)
  {
  }

  /** A catalog table's request, read by the server, restricts to exactly its own index. */
  lemma CatalogRequestNamesItsIndex(name: string)
    requires IsBytes(name)
    ensures IsBytes(NormalizeSearchQuery(IndexQuery(name)))
    ensures var form := ReadForm(WriteForm(ExportFields(IndexQuery(name), "-15m", "now", 0)));
            && |form| == 4
            && form[0] == Some(("search", "search " + IndexQuery(name)))
            && ScanLiteral(("search " + IndexQuery(name))[|"search " + INDEX_PREFIX|..]) == Literal(name, "")
  {
    IndexQueryNormalized(name);
    IndexQueryIsBytes(name);
    FormReads(IndexQuery(name), "-15m", "now", 0);
    SearchedIndex(IndexQuery(name), name);
  }

  lemma SearchedIndex(q: string, name: string)
    requires q == IndexQuery(name)
    ensures ScanLiteral(("search " + q)[|"search " + INDEX_PREFIX|..]) == Literal(name, "")
  {
    IndexQueryRoundTrip(name);
    assert ("search " + q)[|"search " + INDEX_PREFIX|..] == q[|INDEX_PREFIX|..];
  }

  lemma IndexQueryIsBytes(name: string)
    requires IsBytes(name)
    ensures IsBytes("search " + IndexQuery(name))
  {
    EscapeIsBytes(name);
  }

  lemma {:induction false} EscapeIsBytes(name: string)
    requires IsBytes(name)
    ensures IsBytes(Escape(name))
  {
    if name == "" {
    } else {
      EscapeIsBytes(name[..|name| - 1]);
    }
  }
}
