/**
 * The meaning of an export response, independent of chunks, threads and buffers: the rows of its
 * lines up to the first line that reports a search error, and that error.
 */
module Reference {
  import opened Common
  import opened EventMapping
  import opened ExportRecords
  import opened JsonValues
  import opened Lines

  type LineParser = string -> LineOutcome

  datatype Meaning = Meaning(rows: seq<Row>, error: Option<SearchError>)

  function MeaningOf(parser: LineParser, lines: seq<string>): Meaning {
    if lines == [] then Meaning([], None)
    else
      match parser(lines[0])
      case Fails(e) => Meaning([], Some(e))
      case Yields(rows) =>
        var rest := MeaningOf(parser, lines[1..]);
        Meaning(rows + rest.rows, rest.error)
  }

  function BodyMeaning(parser: LineParser, body: string): Meaning {
    MeaningOf(parser, SplitLines(body))
  }

  /** The parser of a scan: fixed libraries and a fixed projection. */
  function ScanParser(lib: Library, columnIds: seq<nat>): LineParser {
    line => LineRows(lib, columnIds, line)
  }

  /** Meanings compose: an error cuts off what follows. */
  function Then(a: Meaning, b: Meaning): Meaning {
    if a.error.Some? then a else Meaning(a.rows + b.rows, b.error)
  }

  lemma {:induction false} MeaningAppend(parser: LineParser, a: seq<string>, b: seq<string>)
    ensures MeaningOf(parser, a + b) == Then(MeaningOf(parser, a), MeaningOf(parser, b))
  {
    if a == [] {
      assert a + b == b;
      assert [] + MeaningOf(parser, b).rows == MeaningOf(parser, b).rows;
    } else {
      assert (a + b)[1..] == a[1..] + b;
      MeaningAppend(parser, a[1..], b);
      match parser(a[0])
      case Fails(_) =>
      case Yields(rows) =>
        var m, n := MeaningOf(parser, a[1..]), MeaningOf(parser, b);
        assert rows + (m.rows + n.rows) == rows + m.rows + n.rows;
    }
  }

  lemma MeaningSnoc(parser: LineParser, lines: seq<string>, line: string)
    ensures MeaningOf(parser, lines + [line]) ==
            Then(MeaningOf(parser, lines),
                 match parser(line) case Fails(e) => Meaning([], Some(e)) case Yields(rows) => Meaning(rows, None))
  {
    MeaningAppend(parser, lines, [line]);
    assert [line][1..] == [];
    match parser(line)
    case Fails(_) =>
    case Yields(rows) => assert rows + [] == rows;
  }

  /** Delivery stops at the first row beyond `bound`; an error line after that row is not reached. */
  function Bounded(bound: Option<nat>, m: Meaning): Meaning {
    Meaning(Upto(bound, m.rows), if Exceeds(bound, m.rows) then None else m.error)
  }

  /**
   * What the native scan delivers. Its row cap is noticed at the first event beyond it, so an error
   * line is raised exactly when no such event comes first.
   */
  function NativeMeaning(cap: nat, m: Meaning): Meaning {
    Bounded(CapBound(cap), m)
  }

  /** A cut-off meaning is settled: more lines cannot change it. */
  lemma BoundedSettles(bound: Option<nat>, m: Meaning, more: Meaning)
    ensures Upto(bound, m.rows) <= Upto(bound, Then(m, more).rows)
    ensures Exceeds(bound, m.rows) || m.error.Some? ==> Bounded(bound, Then(m, more)) == Bounded(bound, m)
  {
  }

  /** One more row offered: it is taken unless the bound is already used up. */
  lemma OfferRow(bound: Option<nat>, base: seq<Row>, rows: seq<Row>, i: nat)
    requires i < |rows|
    ensures var before, after := base + rows[..i], base + rows[..i + 1];
            && (Exceeds(bound, after) <==> Exceeds(bound, before) || bound == Some(|Upto(bound, before)|))
            && Upto(bound, after) == (if Exceeds(bound, after) then Upto(bound, before) else Upto(bound, before) + [rows[i]])
  {
  }

  /** What the browser scan delivers. Its row cap is tested before each line is parsed. */
  function BrowserMeaning(cap: nat, m: Meaning): Meaning {
    Meaning(Upto(CapBound(cap), m.rows), if cap > 0 && |m.rows| >= cap then None else m.error)
  }

  /** The two disagree exactly on a response whose first error line follows exactly `cap` rows. */
  lemma MeaningsDifferExactly(cap: nat, m: Meaning)
    ensures NativeMeaning(cap, m).rows == BrowserMeaning(cap, m).rows
    ensures NativeMeaning(cap, m) != BrowserMeaning(cap, m) <==> cap > 0 && |m.rows| == cap && m.error.Some?
  {
  }

  /** A line that carries nothing can be inserted or dropped anywhere. */
  lemma SilentLinesIgnored(parser: LineParser, before: seq<string>, silent: string, after: seq<string>)
    requires parser(silent) == Yields([])
    ensures MeaningOf(parser, before + [silent] + after) == MeaningOf(parser, before + after)
  {
    MeaningSnoc(parser, before, silent);
    MeaningAppend(parser, before + [silent], after);
    MeaningAppend(parser, before, after);
    var m := MeaningOf(parser, before);
    assert m.rows + [] == m.rows;
  }

  /** Nothing after the first error line matters. */
  lemma NothingAfterAnError(parser: LineParser, before: seq<string>, bad: string, after: seq<string>)
    requires parser(bad).Fails?
    ensures MeaningOf(parser, before + [bad] + after) == MeaningOf(parser, before + [bad])
    ensures MeaningOf(parser, before + [bad]).rows == MeaningOf(parser, before).rows
  {
    MeaningSnoc(parser, before, bad);
    MeaningAppend(parser, before + [bad], after);
    var m := MeaningOf(parser, before);
    assert m.rows + [] == m.rows;
  }
}
