/** Whole-response consequences for the real line parser: projection pushdown and the export shapes. */
module ScanMeaning {
  import opened Common
  import opened EventMapping
  import opened ExportRecords
  import opened JsonValues
  import opened Lines
  import opened Reference

  //------------------------------------------------------------------ projection pushdown

  /** The identity projection. */
  function AllColumns(): (ids: seq<nat>)
    ensures |ids| == COLUMN_COUNT
  {
    seq(COLUMN_COUNT, i requires 0 <= i < COLUMN_COUNT => i)
  }

  /** Projecting a full row after the fact. */
  function Pick(row: Row, columnIds: seq<nat>): (r: Row)
    ensures |r| == |columnIds|
  {
    seq(|columnIds|, c requires 0 <= c < |columnIds| => Column(row, columnIds[c]))
  }

  function PickAll(rows: seq<Row>, columnIds: seq<nat>): (r: seq<Row>)
    ensures |r| == |rows|
  {
    seq(|rows|, i requires 0 <= i < |rows| => Pick(rows[i], columnIds))
  }

  lemma ProjectingFullRow(lib: Library, event: Json, columnIds: seq<nat>)
    ensures Projected(lib, event, columnIds) == Pick(Projected(lib, event, AllColumns()), columnIds)
  {
    var full, all := FullRow(lib, event), Projected(lib, event, AllColumns());
    PickSame(full, all, columnIds);
    assert forall i :: 0 <= i < COLUMN_COUNT ==> all[i] == Column(full, i);
  }

  lemma PickSame(full: Row, all: Row, columnIds: seq<nat>)
    requires |full| == |all|
    ensures (forall i :: 0 <= i < |full| ==> all[i] == Column(full, i)) ==> Pick(all, columnIds) == Pick(full, columnIds)
  {
  }

  lemma LinePushdown(lib: Library, columnIds: seq<nat>, line: string)
    ensures LineRows(lib, columnIds, line) ==
            match LineRows(lib, AllColumns(), line)
            case Fails(e) => Fails(e)
            case Yields(rows) => Yields(PickAll(rows, columnIds))
  {
    match LineRecord(lib, line)
    case Raises(_) =>
    case Events(events) =>
      forall i | 0 <= i < |events|
        ensures Projected(lib, events[i], columnIds) == Pick(Projected(lib, events[i], AllColumns()), columnIds)
      {
        ProjectingFullRow(lib, events[i], columnIds);
      }
      assert Rows(lib, columnIds, events) == PickAll(Rows(lib, AllColumns(), events), columnIds);
  }

  function PickMeaning(m: Meaning, columnIds: seq<nat>): Meaning {
    Meaning(PickAll(m.rows, columnIds), m.error)
  }

  lemma {:induction false} Pushdown(lib: Library, columnIds: seq<nat>, lines: seq<string>)
    ensures MeaningOf(ScanParser(lib, columnIds), lines) ==
            PickMeaning(MeaningOf(ScanParser(lib, AllColumns()), lines), columnIds)
  {
    if lines == [] {
    } else {
      LinePushdown(lib, columnIds, lines[0]);
      Pushdown(lib, columnIds, lines[1..]);
      PushdownStep(ScanParser(lib, columnIds)(lines[0]), ScanParser(lib, AllColumns())(lines[0]),
                   MeaningOf(ScanParser(lib, columnIds), lines[1..]),
                   MeaningOf(ScanParser(lib, AllColumns()), lines[1..]), columnIds);
    }
  }

  function OneLine(first: LineOutcome, rest: Meaning): Meaning {
    match first
    case Fails(e) => Meaning([], Some(e))
    case Yields(rows) => Meaning(rows + rest.rows, rest.error)
  }

  lemma PushdownStep(some: LineOutcome, all: LineOutcome, someRest: Meaning, allRest: Meaning, columnIds: seq<nat>)
    requires some == match all case Fails(e) => Fails(e) case Yields(rows) => Yields(PickAll(rows, columnIds))
    requires someRest == PickMeaning(allRest, columnIds)
    ensures OneLine(some, someRest) == PickMeaning(OneLine(all, allRest), columnIds)
  {
  }

  /**
   * Projection pushdown: scanning with any column list gives the same rows, in number and order, as a full
   * scan projected afterwards, under any row cap, and the same error.
   */
  lemma ProjectionPushdown(lib: Library, columnIds: seq<nat>, body: string, cap: nat)
    ensures NativeMeaning(cap, BodyMeaning(ScanParser(lib, columnIds), body)) ==
            PickMeaning(NativeMeaning(cap, BodyMeaning(ScanParser(lib, AllColumns()), body)), columnIds)
  {
    Pushdown(lib, columnIds, SplitLines(body));
    UptoPicked(CapBound(cap), BodyMeaning(ScanParser(lib, AllColumns()), body).rows, columnIds);
  }

  lemma UptoPicked(bound: Option<nat>, rows: seq<Row>, columnIds: seq<nat>)
    ensures Upto(bound, PickAll(rows, columnIds)) == PickAll(Upto(bound, rows), columnIds)
  {
  }

  //------------------------------------------------------------------ the export shapes

  /** The lines are the streamed records of the events, one each. */
  predicate Streams(lib: Library, lines: seq<string>, events: seq<Json>) {
    && |lines| == |events|
    && forall i :: 0 <= i < |lines| ==>
         StripCarriageReturns(lines[i]) != "" && lib.parse(StripCarriageReturns(lines[i])) == Some(StreamedShape(events[i]))
  }

  /** The line is the buffered record of all events. */
  predicate Buffers(lib: Library, line: string, events: seq<Json>) {
    StripCarriageReturns(line) != "" && lib.parse(StripCarriageReturns(line)) == Some(BufferedShape(events))
  }

  /** One streamed record yields the row of its event. */
  lemma StreamedLine(lib: Library, columnIds: seq<nat>, line: string, event: Json)
    requires event.JObject?
    requires StripCarriageReturns(line) != "" && lib.parse(StripCarriageReturns(line)) == Some(StreamedShape(event))
    ensures LineRows(lib, columnIds, line) == Yields(Rows(lib, columnIds, [event]))
  {
    StreamedShapeRecord(event);
  }

  lemma Pieces<A, B>(f: A -> B, x: A, xs: seq<A>, first: seq<B>, more: seq<B>, all: seq<B>)
    requires first == [f(x)] && |more| == |xs| && |all| == 1 + |xs|
    requires forall i :: 0 <= i < |xs| ==> more[i] == f(xs[i])
    requires forall i :: 0 <= i < |all| ==> all[i] == f(([x] + xs)[i])
    ensures first + more == all
  {
    assert forall i :: 0 < i < |all| ==> ([x] + xs)[i] == xs[i - 1];
  }

  lemma RowsCons(lib: Library, columnIds: seq<nat>, event: Json, more: seq<Json>)
    ensures Rows(lib, columnIds, [event]) + Rows(lib, columnIds, more) == Rows(lib, columnIds, [event] + more)
  {
    Pieces(e => Projected(lib, e, columnIds), event, more,
           Rows(lib, columnIds, [event]), Rows(lib, columnIds, more), Rows(lib, columnIds, [event] + more));
  }

  lemma {:induction false} StreamedMeaning(lib: Library, columnIds: seq<nat>, lines: seq<string>, events: seq<Json>)
    requires forall i :: 0 <= i < |events| ==> events[i].JObject?
    requires Streams(lib, lines, events)
    ensures MeaningOf(ScanParser(lib, columnIds), lines) == Meaning(Rows(lib, columnIds, events), None)
  {
    if lines == [] {
    } else {
      StreamedMeaning(lib, columnIds, lines[1..], events[1..]);
      StreamedLine(lib, columnIds, lines[0], events[0]);
      RowsCons(lib, columnIds, events[0], events[1..]);
      assert events == [events[0]] + events[1..];
    }
  }

  /** A response means the same, under any cap, whether its events are streamed one per line or buffered in one record. */
  lemma ResponseShapesAgree(lib: Library, columnIds: seq<nat>, lines: seq<string>, line: string, events: seq<Json>)
    requires forall i :: 0 <= i < |events| ==> events[i].JObject?
    requires Streams(lib, lines, events) && Buffers(lib, line, events)
    requires NoNewlines(lines) && !HasNewline(line)
    ensures BodyMeaning(ScanParser(lib, columnIds), Unlines(lines)) == Meaning(Rows(lib, columnIds, events), None)
    ensures BodyMeaning(ScanParser(lib, columnIds), line + "\n") == Meaning(Rows(lib, columnIds, events), None)
  {
    StreamedMeaning(lib, columnIds, lines, events);
    ExportShapesAgree(events);
    BufferedLine(lib, columnIds, line, events);
    SplitOfLines(lines);
    SplitOfLines([line]);
    OneUnline(line);
  }

  lemma SplitOfLines(lines: seq<string>)
    requires NoNewlines(lines)
    ensures SplitLines(Unlines(lines)) == lines
  {
    SplitAfter(lines, "");
    NewlineFree("");
    assert Unlines(lines) + "" == Unlines(lines);
    assert SplitLines("") == [] && lines + [] == lines;
  }

  lemma OneUnline(line: string)
    ensures Unlines([line]) == line + "\n"
  {
    assert [line][1..] == [];
    assert line + "\n" + "" == line + "\n";
  }

  lemma BufferedLine(lib: Library, columnIds: seq<nat>, line: string, events: seq<Json>)
    requires Buffers(lib, line, events) && RootRecord(BufferedShape(events)) == Events(events)
    ensures MeaningOf(ScanParser(lib, columnIds), [line]) == Meaning(Rows(lib, columnIds, events), None)
  {
    assert ScanParser(lib, columnIds)(line) == Yields(Rows(lib, columnIds, events));
    assert [line][1..] == [];
    assert Rows(lib, columnIds, events) + [] == Rows(lib, columnIds, events);
  }

  /** The line carries neither an event nor an error: blank, malformed, a preview, or messages without an error. */
  predicate IsNoise(lib: Library, line: string) {
    var text := StripCarriageReturns(line);
    || text == "" || lib.parse(text).None?
    || (RootError(lib.parse(text).value).None? && ControlOnly(lib.parse(text).value))
  }

  lemma NoiseYieldsNothing(lib: Library, columnIds: seq<nat>, noise: string)
    requires IsNoise(lib, noise)
    ensures ScanParser(lib, columnIds)(noise) == Yields([])
  {
    SilentLineExactly(lib, noise);
    assert Rows(lib, columnIds, []) == [];
  }

  /** Noise can be put in or left out after any line of a response, whatever bytes follow. */
  lemma NoiseIgnored(lib: Library, columnIds: seq<nat>, before: seq<string>, noise: string, after: string)
    requires NoNewlines(before) && !HasNewline(noise) && IsNoise(lib, noise)
    ensures BodyMeaning(ScanParser(lib, columnIds), Unlines(before + [noise]) + after) ==
            BodyMeaning(ScanParser(lib, columnIds), Unlines(before) + after)
  {
    NoiseYieldsNothing(lib, columnIds, noise);
    SplitAfter(before, after);
    SplitAfter(before + [noise], after);
    SilentLinesIgnored(ScanParser(lib, columnIds), before, noise, SplitLines(after));
  }
}
