/** Inputs on which a guarantee one might expect does not hold, for the real line parser. */
module Witnesses {
  import opened Common
  import opened EventMapping
  import opened ExportRecords
  import opened JsonValues
  import opened Lines
  import opened Reference
  import opened ScanInvariant
  import opened ScanMachine
  import opened ScanMeaning
  import opened ScanTheorems
  import opened Text

  //------------------------------------------------------------------ an interrupt may truncate

  /** A response of one line has arrived. */
  lemma LineArrived(cfg: Config, line: string) returns (s: State)
    requires cfg.vectorSize > 0
    ensures Reachable(cfg, s) && s.stream == line + "\n" && !s.finished && !s.cancelled && s.error.None? && s.buffer == []
    ensures s.mutex == Nobody && s.c == ScannerState(Entering, [], false, []) && s.done == []
    ensures s.p == ProducerState(Splitting, line + "\n", [], 0, false, false, false, false, None)
  {
    s := Initial();
    assert Leads(cfg, Initial(), [], s);
    ReachableStep(cfg, s, StartScan);
    s := Next(cfg, s, StartScan);
    ReachableStep(cfg, s, Chunk(line + "\n"));
    s := Next(cfg, s, Chunk(line + "\n"));
    assert "" + (line + "\n") == line + "\n";
  }

  /** Its one row is about to be offered. */
  lemma RowAtTheLock(cfg: Config, line: string, row: Row) returns (s: State)
    requires cfg.vectorSize > 0 && !HasNewline(line) && cfg.parser(line) == Yields([row])
    ensures Reachable(cfg, s) && s.stream == line + "\n" && !s.finished && !s.cancelled && s.error.None? && s.buffer == []
    ensures s.mutex == Nobody && s.c == ScannerState(Entering, [], false, [])
    ensures s.p == ProducerState(Locking, "", [row], 0, false, false, false, false, None)
  {
    s := LineArrived(cfg, line);
    CutsOneLine(line);
    ReachableStep(cfg, s, ProducerStep);
    s := Next(cfg, s, ProducerStep);
    ReachableStep(cfg, s, ProducerStep);
    s := Next(cfg, s, ProducerStep);
  }

  lemma CutsOneLine(line: string)
    requires !HasNewline(line)
    ensures CutLine(line + "\n") == Cut(line, "")
  {
    var text := line + "\n";
    assert text[..|line|] == line && text[|line| + 1..] == "";
    FirstNewlineIs(text, |line|);
  }

  /** Interrupted there, the producer gives up and finishes without an error. */
  lemma GivesUpQuietly(cfg: Config, line: string, row: Row) returns (s: State)
    requires cfg.vectorSize > 0 && !HasNewline(line) && cfg.parser(line) == Yields([row])
    ensures Reachable(cfg, s) && s.stream == line + "\n" && s.finished && s.interrupted && !s.cancelled
    ensures GaveUp(cfg, s) && s.error.None? && s.buffer == []
    ensures s.mutex == Nobody && s.c == ScannerState(Entering, [], false, [])
  {
    s := RowAtTheLock(cfg, line, row);
    ReachableStep(cfg, s, Interrupt);
    s := Next(cfg, s, Interrupt);
    ReachableStep(cfg, s, ProducerStep);
    s := Next(cfg, s, ProducerStep);
    ReachableStep(cfg, s, ProducerStep);
    s := Next(cfg, s, ProducerStep);
    assert s.p == ProducerState(Emitting, "", [], 0, true, false, false, false, None);
    ReachableStep(cfg, s, ProducerStep);
    s := Next(cfg, s, ProducerStep);
    ReachableStep(cfg, s, ProducerStep);
    s := Next(cfg, s, ProducerStep);
    ReachableStep(cfg, s, ProducerStep);
    s := Next(cfg, s, ProducerStep);
    assert s.p.at == Finishing;
    ReachableStep(cfg, s, ProducerStep);
    s := Next(cfg, s, ProducerStep);
  }

  /** The call that was waiting then returns an empty chunk. */
  lemma EndsQuietly(cfg: Config, line: string, row: Row) returns (s: State)
    requires cfg.vectorSize > 0 && !HasNewline(line) && cfg.parser(line) == Yields([row])
    ensures Reachable(cfg, s) && s.stream == line + "\n" && s.interrupted && !s.cancelled && GaveUp(cfg, s)
    ensures s.c == ScannerState(Idle, [], false, [Delivered([])])
  {
    s := GivesUpQuietly(cfg, line, row);
    ReachableStep(cfg, s, ScannerStep);
    s := Next(cfg, s, ScannerStep);
    ReachableStep(cfg, s, ScannerStep);
    s := Next(cfg, s, ScannerStep);
    assert s.c == ScannerState(Freeing, [], false, []);
    ReachableStep(cfg, s, ScannerStep);
    s := Next(cfg, s, ScannerStep);
  }

  /** Some run over this text is interrupted and ends like a normal end of stream, though `rows` are missing. */
  ghost predicate CanTruncate(cfg: Config, text: string, rows: seq<Row>) {
    && NativeMeaning(cfg.cap, BodyMeaning(cfg.parser, text)) == Meaning(rows, None) && rows != []
    && exists s :: Reachable(cfg, s) && s.stream == text && s.interrupted && !s.cancelled && GaveUp(cfg, s)
                   && s.c.scans == [Delivered([])] && Emitted(s.c.scans) == []
  }

  /**
   * Completeness needs an uninterrupted run: for every vector size, cap, library and projection, a response
   * of one event record can be lost without any call raising an error.
   */
  lemma InterruptCanTruncate(lib: Library, columnIds: seq<nat>, vectorSize: nat, cap: nat, line: string, event: Json)
    requires vectorSize > 0 && !HasNewline(line) && event.JObject? && Streams(lib, [line], [event])
    ensures CanTruncate(Config(vectorSize, cap, ScanParser(lib, columnIds)), line + "\n", Rows(lib, columnIds, [event]))
  {
    var cfg, rows := Config(vectorSize, cap, ScanParser(lib, columnIds)), Rows(lib, columnIds, [event]);
    OneStreamedLine(lib, columnIds, line, event);
    assert rows == [rows[0]];
    var s := EndsQuietly(cfg, line, rows[0]);
    assert s.c.scans[..0] == [];
  }

  lemma OneStreamedLine(lib: Library, columnIds: seq<nat>, line: string, event: Json)
    requires !HasNewline(line) && event.JObject? && Streams(lib, [line], [event])
    ensures ScanParser(lib, columnIds)(line) == Yields(Rows(lib, columnIds, [event]))
    ensures BodyMeaning(ScanParser(lib, columnIds), line + "\n") == Meaning(Rows(lib, columnIds, [event]), None)
  {
    assert StripCarriageReturns([line][0]) != "" && lib.parse(StripCarriageReturns([line][0])) == Some(StreamedShape([event][0]));
    StreamedLine(lib, columnIds, line, event);
    StreamedMeaning(lib, columnIds, [line], [event]);
    SplitOfLines([line]);
    OneUnline(line);
  }

  //------------------------------------------------------------------ the platforms may disagree

  /** The line is a record of messages whose first error is `e`. */
  predicate Fatal(lib: Library, line: string, e: SearchError) {
    var text := StripCarriageReturns(line);
    text != "" && lib.parse(text).Some? && RootError(lib.parse(text).value) == Some(e)
  }

  /** A response of exactly `cap` events and then an error line: native raises it, the browser does not. */
  lemma PlatformsDisagree(lib: Library, columnIds: seq<nat>, lines: seq<string>, events: seq<Json>, bad: string, e: SearchError)
    requires NoNewlines(lines) && !HasNewline(bad) && events != []
    requires forall i :: 0 <= i < |events| ==> events[i].JObject?
    requires Streams(lib, lines, events) && Fatal(lib, bad, e)
    ensures var m, rows := BodyMeaning(ScanParser(lib, columnIds), Unlines(lines + [bad])), Rows(lib, columnIds, events);
            NativeMeaning(|events|, m) == Meaning(rows, Some(e)) && BrowserMeaning(|events|, m) == Meaning(rows, None)
  {
    var parser, rows := ScanParser(lib, columnIds), Rows(lib, columnIds, events);
    SplitOfLines(lines + [bad]);
    StreamedMeaning(lib, columnIds, lines, events);
    assert parser(bad) == Fails(e);
    MeaningSnoc(parser, lines, bad);
    assert rows + [] == rows;
  }

  //------------------------------------------------------------------ concrete inputs

  const EVENT := JObject([])

  const ERROR_MESSAGE := JObject([("type", JString("ERROR"))])

  const ERROR_RECORD := JObject([("messages", JArray([ERROR_MESSAGE]))])

  /** A library that reads "r" as an event record and "e" as an error record. */
  function SmallLibrary(): Library {
    Library(text => if text == "r" then Some(StreamedShape(EVENT)) else if text == "e" then Some(ERROR_RECORD) else None,
            _ => None, _ => None, _ => None)
  }

  lemma SmallError()
    ensures RootError(ERROR_RECORD) == Some(SearchError("ERROR", "(no detail)"))
  {
    GetOfOne(("messages", JArray([ERROR_MESSAGE])), "messages");
    GetOfOne(("type", JString("ERROR")), "type");
    GetOfOne(("type", JString("ERROR")), "text");
    assert "type"[1] != "text"[1];
    assert CStr("ERROR") == "ERROR";
    assert GetStr(Some(ERROR_MESSAGE), "type") == Some("ERROR");
    assert GetStr(Some(ERROR_MESSAGE), "text") == None;
  }

  lemma SmallRecords()
    ensures Streams(SmallLibrary(), ["r"], [EVENT]) && !HasNewline("r")
    ensures Fatal(SmallLibrary(), "e", SearchError("ERROR", "(no detail)")) && !HasNewline("e")
  {
    SmallError();
    assert "r"[0] != "e"[0];
    assert StripCarriageReturns("r") == "r" && StripCarriageReturns("e") == "e";
  }

  lemma TwoLines()
    ensures Unlines(["r"] + ["e"]) == "r\ne\n"
  {
    assert (["r"] + ["e"])[1..] == ["e"];
    OneUnline("e");
  }

  /** Cap 1, one event, one error message. */
  lemma SmallDisagreement(columnIds: seq<nat>)
    ensures var m := BodyMeaning(ScanParser(SmallLibrary(), columnIds), "r\ne\n");
            && NativeMeaning(1, m).error == Some(SearchError("ERROR", "(no detail)"))
            && BrowserMeaning(1, m).error == None
            && |NativeMeaning(1, m).rows| == 1 && NativeMeaning(1, m).rows == BrowserMeaning(1, m).rows
  {
    SmallRecords();
    PlatformsDisagree(SmallLibrary(), columnIds, ["r"], [EVENT], "e", SearchError("ERROR", "(no detail)"));
    TwoLines();
  }

  /** One event, lost to an interrupt. */
  lemma SmallTruncation(columnIds: seq<nat>, vectorSize: nat)
    requires vectorSize > 0
    ensures CanTruncate(Config(vectorSize, 0, ScanParser(SmallLibrary(), columnIds)), "r\n",
                        Rows(SmallLibrary(), columnIds, [EVENT]))
  {
    SmallRecords();
    InterruptCanTruncate(SmallLibrary(), columnIds, vectorSize, 0, "r", EVENT);
    assert "r" + "\n" == "r\n";
  }
}
