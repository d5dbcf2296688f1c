/**
 * The browser scan: a cursor over a completed response body that decodes only as many rows as a
 * call may return, with an overflow queue for records that carry several events.
 */
module BrowserScan {
  import opened Common
  import opened EventMapping
  import opened ExportRecords
  import opened Lines
  import opened Reference

  /** One scan call: a chunk of rows, a search error, or a request that failed before any row. */
  datatype ScanResult = Chunk(rows: seq<Row>) | Raised(error: SearchError) | RequestFailed

  predicate IsMultiple(n: nat, size: nat)
    requires size > 0
  {
    n == 0 || (n >= size && IsMultiple(n - size, size))
  }

  /** As many whole vectors of the rows as there are. */
  function WholeVectors(rows: seq<Row>, size: nat): (r: seq<Row>)
    requires size > 0
    ensures r <= rows && IsMultiple(|r|, size) && |rows| < |r| + size
    decreases |rows|
  {
    if |rows| < size then [] else rows[..size] + WholeVectors(rows[size..], size)
  }

  lemma {:induction false} WholeVectorsOf(rows: seq<Row>, rest: seq<Row>, size: nat)
    requires size > 0 && IsMultiple(|rows|, size) && |rest| < size
    ensures WholeVectors(rows + rest, size) == rows
    decreases |rows|
  {
    if rows == [] {
      assert rows + rest == rest;
    } else {
      WholeVectorsOf(rows[size..], rest, size);
      assert (rows + rest)[..size] == rows[..size] && (rows + rest)[size..] == rows[size..] + rest;
      assert rows[..size] + rows[size..] == rows;
    }
  }

  class State {
    /** What each response line yields: parsing, event extraction and projection together. */
    const parser: LineParser
    const maxRows: nat
    /** STANDARD_VECTOR_SIZE */
    const vectorSize: nat

    var response: string
    var responseOffset: nat
    var produced: nat
    var fetched: bool
    var buffer: seq<Row>
    /** The data chunk being filled by the current call. */
    var output: seq<Row>

    /** Every row decoded so far: returned by earlier calls, lost in a call that raised, or still here. */
    ghost var decoded: seq<Row>
    ghost var handed: seq<Row>
    ghost var lost: seq<Row>
    /** The decoded rows from before the current call. */
    ghost var earlier: seq<Row>
    /** The lines of the response already parsed, and those still ahead. */
    ghost var fed: seq<string>
    ghost var ahead: seq<string>

    constructor (parser: LineParser, maxRows: nat, vectorSize: nat)
      requires vectorSize > 0
      ensures Valid() && !fetched && handed == [] && lost == []
      ensures this.parser == parser && this.maxRows == maxRows && this.vectorSize == vectorSize
    {
      this.parser, this.maxRows, this.vectorSize := parser, maxRows, vectorSize;
      response, responseOffset, produced, fetched, buffer, output := "", 0, 0, false, [], [];
      handed, lost, earlier, fed, ahead, decoded := [], [], [], [], [], [];
    }

    ghost function Bound(): Option<nat> { CapBound(maxRows) }

    predicate CapReached()
      reads this`produced
    {
      maxRows > 0 && produced >= maxRows
    }

    /** Where the decoded rows are: the chunk has room only while nothing is queued behind it. */
    ghost predicate Placed()
      reads this`decoded, this`earlier, this`output, this`buffer, this`produced
    {
      && decoded == earlier + (output + buffer)
      && produced == |decoded|
      && |output| <= vectorSize
    }

    /** The cursor splits the response into parsed lines and lines ahead. */
    ghost predicate Cursor()
      reads this`response, this`responseOffset, this`produced, this`fed, this`ahead
    {
      && SplitLines(response) == fed + ahead
      && (responseOffset < |response| ==> ahead == SplitLines(response[responseOffset..]))
      && (responseOffset >= |response| ==> ahead == [] || CapReached())
    }

    ghost predicate Decoding()
      reads this`response, this`responseOffset, this`produced, this`fed, this`ahead, this`decoded
    {
      && vectorSize > 0
      && Cursor()
      && MeaningOf(parser, fed).error.None?
      && decoded == Upto(Bound(), MeaningOf(parser, fed).rows)
      && produced == |decoded|
    }

    /** The next line ahead raises, and nothing is buffered: the state a raising call leaves. */
    ghost predicate Failing()
      reads this`response, this`responseOffset, this`produced, this`ahead, this`buffer
    {
      && responseOffset < |response| && !CapReached() && buffer == []
      && ahead != [] && parser(ahead[0]).Fails?
    }

    /** Between two calls. */
    ghost predicate Valid()
      reads this
    {
      && Decoding() && Placed()
      && output == [] && earlier == handed + lost
      && (lost != [] ==> Failing())
      && (!fetched ==> response == "" && responseOffset == 0 && decoded == [])
    }

    predicate Exhausted()
      reads this`response, this`responseOffset, this`buffer
    {
      responseOffset >= |response| && buffer == []
    }

    /** What the scan means for the whole response. */
    ghost function Meant(): Meaning
      reads this`response
    {
      BrowserMeaning(maxRows, BodyMeaning(parser, response))
    }

    /** Once exhausted, everything the response means was decoded, and it raises nothing. */
    lemma ExhaustedIsComplete()
      requires Decoding() && Exhausted()
      ensures Meant() == Meaning(decoded, None)
    {
      MeaningAppend(parser, fed, ahead);
      var m, more := MeaningOf(parser, fed), MeaningOf(parser, ahead);
      BoundedSettles(Bound(), m, more);
      UptoExtend(Bound(), m.rows, more.rows);
      if ahead == [] { assert m.rows + [] == m.rows; }
    }

    /** What was decoded is always a prefix of what the response means. */
    lemma DecodedIsPrefix()
      requires Decoding()
      ensures decoded <= Meant().rows
    {
      MeaningAppend(parser, fed, ahead);
      UptoExtend(Bound(), MeaningOf(parser, fed).rows, MeaningOf(parser, ahead).rows);
    }

    /** A failing line ahead is the response's first error, after exactly the rows decoded so far. */
    lemma FailingIsFirstError()
      requires Decoding() && Failing()
      ensures Meant() == Meaning(decoded, Some(parser(ahead[0]).error))
    {
      MeaningAppend(parser, fed, ahead);
      var m := MeaningOf(parser, fed);
      assert m.rows + [] == m.rows;
    }

    /** `FetchBrowserResponse`; None stands for a request that throws. */
    method Fetch(body: Option<string>) returns (ok: bool)
      requires Valid() && !fetched
      modifies this
      ensures Valid() && handed == [] && lost == []
      ensures ok <==> body.Some?
      ensures if ok then fetched && response == body.value else !fetched
    {
      if body.None? { return false; }
      if body.value != "" {
        response := response + body.value;
      }
      fetched := true;
      fed, ahead := [], SplitLines(response);
      assert response == body.value && response[0..] == response;
      assert decoded == [] && MeaningOf(parser, fed).rows == [];
      ok := true;
    }

    /** The event callback: into the chunk while it has room, then into the overflow queue. */
    method OnRow(row: Row)
      requires Placed() && (|output| < vectorSize ==> buffer == [])
      modifies this`produced, this`output, this`buffer, this`decoded
      ensures Placed() && (|output| < vectorSize ==> buffer == [])
      ensures decoded == if Bound() == Some(|old(decoded)|) || Exceeds(Bound(), old(decoded)) then old(decoded)
                         else old(decoded) + [row]
    {
      if maxRows > 0 && produced >= maxRows { return; }
      produced := produced + 1;
      decoded := decoded + [row];
      if |output| < vectorSize {
        output := output + [row];
      } else {
        buffer := buffer + [row];
        assert output + buffer == (output + old(buffer)) + [row];
      }
    }

    /** One record's events. */
    method OnRows(rows: seq<Row>)
      requires Placed() && (|output| < vectorSize ==> buffer == []) && !Exceeds(Bound(), decoded)
      modifies this`produced, this`output, this`buffer, this`decoded
      ensures Placed() && (|output| < vectorSize ==> buffer == [])
      ensures decoded == Upto(Bound(), old(decoded) + rows)
    {
      ghost var base := decoded;
      var i := 0;
      assert base + rows[..0] == base;
      while i < |rows|
        invariant 0 <= i <= |rows|
        invariant Placed() && (|output| < vectorSize ==> buffer == [])
        invariant decoded == Upto(Bound(), base + rows[..i])
      {
        OfferRow(Bound(), base, rows, i);
        OnRow(rows[i]);
        i := i + 1;
      }
      assert rows[..|rows|] == rows;
    }

    /** The lines ahead, one line further on. */
    lemma NextLine(newline: nat)
      requires Cursor() && responseOffset < |response|
      requires responseOffset <= newline <= |response| && !HasNewline(response[responseOffset..newline])
      requires newline < |response| ==> response[newline] == '\n'
      ensures ahead != [] && ahead[0] == response[responseOffset..newline]
      ensures SplitLines(response) == (fed + [ahead[0]]) + ahead[1..]
      ensures newline + 1 < |response| ==> ahead[1..] == SplitLines(response[newline + 1..])
      ensures newline + 1 >= |response| ==> ahead[1..] == []
    {
      SplitFirstFrom(response, responseOffset, newline);
      assert fed + ahead == (fed + [ahead[0]]) + ahead[1..];
    }

    /** Parses the record at the cursor and moves past it; an error leaves the cursor on it. */
    method ParseNext() returns (error: Option<SearchError>)
      requires Decoding() && Placed() && responseOffset < |response| && !CapReached()
      requires |output| < vectorSize && buffer == []
      modifies this`produced, this`output, this`buffer, this`decoded, this`responseOffset, this`fed, this`ahead
      ensures Decoding() && Placed() && (|output| < vectorSize ==> buffer == [])
      ensures old(Failing()) ==> error.Some?
      ensures error.Some? ==> Failing() && parser(ahead[0]) == Fails(error.value) && output == old(output)
      ensures error.None? ==> responseOffset > old(responseOffset)
    {
      var newline := Find(response, responseOffset);
      NextLine(newline);
      match parser(response[responseOffset..newline])
      case Fails(e) => error := Some(e);
      case Yields(rows) =>
        OnRows(rows);
        Advance(newline, rows);
        error := None;
    }

    /** Moves the cursor past a line whose rows have just been decoded. */
    method Advance(newline: nat, ghost rows: seq<Row>)
      requires Cursor() && responseOffset < |response|
      requires responseOffset <= newline <= |response| && !HasNewline(response[responseOffset..newline])
      requires newline < |response| ==> response[newline] == '\n'
      requires ahead != [] && parser(ahead[0]) == Yields(rows)
      requires MeaningOf(parser, fed).error.None? && vectorSize > 0 && produced == |decoded|
      requires decoded == Upto(Bound(), MeaningOf(parser, fed).rows + rows)
      modifies this`responseOffset, this`fed, this`ahead
      ensures Decoding() && responseOffset == newline + 1
    {
      NextLine(newline);
      MeaningSnoc(parser, fed, ahead[0]);
      responseOffset := newline + 1;
      fed, ahead := fed + [ahead[0]], ahead[1..];
    }

    /** First the overflow of an earlier call. */
    method DrainOverflow()
      requires Placed() && output == [] && (lost != [] ==> Failing())
      modifies this`output, this`buffer
      ensures Placed() && (|output| < vectorSize ==> buffer == [])
      ensures lost != [] ==> Failing() && output == []
    {
      while |output| < vectorSize && buffer != []
        invariant Placed()
        invariant lost != [] ==> Failing() && output == []
        decreases |buffer|
      {
        assert output + buffer == (output + [buffer[0]]) + buffer[1..];
        output := output + [buffer[0]];
        buffer := buffer[1..];
      }
    }

    /** Then as many records as fit. */
    method ParseAhead() returns (error: Option<SearchError>)
      requires Decoding() && Placed() && (|output| < vectorSize ==> buffer == [])
      requires lost != [] ==> Failing() && output == []
      modifies this`produced, this`output, this`buffer, this`decoded, this`responseOffset, this`fed, this`ahead
      ensures Decoding() && Placed()
      ensures error.Some? ==> Failing() && parser(ahead[0]) == Fails(error.value) && |output| < vectorSize
      ensures error.None? ==> lost == [] && (|output| < vectorSize ==> Exhausted())
    {
      error := None;
      while |output| < vectorSize && responseOffset < |response|
        invariant Decoding() && Placed() && (|output| < vectorSize ==> buffer == [])
        invariant error.None? && (lost != [] ==> Failing() && output == [])
        decreases |response| - responseOffset
      {
        if maxRows > 0 && produced >= maxRows {
          responseOffset := |response|;
          break;
        }
        error := ParseNext();
        if error.Some? { return; }
      }
    }

    /** What a call on a fetched response returns, given the rows `before` and `gone` of earlier calls. */
    ghost predicate Returned(r: ScanResult, before: seq<Row>, gone: seq<Row>)
      reads this
    {
      match r
      case Chunk(rows) =>
        && handed == before + rows && lost == gone
        && |rows| <= vectorSize
        && (|rows| < vectorSize ==> Exhausted())
      case Raised(e) =>
        && handed == before && gone <= lost && |lost| < |gone| + vectorSize
        && Failing() && Meant() == Meaning(handed + lost, Some(e))
      case RequestFailed => false
    }

    method FillChunk() returns (r: ScanResult)
      requires Valid() && fetched
      modifies this`produced, this`output, this`buffer, this`decoded, this`responseOffset, this`fed, this`ahead,
               this`handed, this`lost, this`earlier
      ensures Valid()
      ensures Returned(r, old(handed), old(lost))
    {
      DrainOverflow();
      var error := ParseAhead();
      if error.None? {
        r := ReturnChunk();
      } else {
        r := RaiseError(error.value);
      }
    }

    method ReturnChunk() returns (r: ScanResult)
      requires Decoding() && Placed() && earlier == handed + lost && fetched
      requires lost == [] && (|output| < vectorSize ==> Exhausted())
      modifies this`handed, this`output, this`earlier
      ensures Valid()
      ensures Returned(r, old(handed), old(lost))
    {
      var rows := HandOver();
      r := Chunk(rows);
    }

    method RaiseError(error: SearchError) returns (r: ScanResult)
      requires Decoding() && Placed() && earlier == handed + lost && fetched
      requires Failing() && parser(ahead[0]) == Fails(error) && |output| < vectorSize
      modifies this`lost, this`output, this`earlier
      ensures Valid()
      ensures Returned(r, old(handed), old(lost))
    {
      Abandon();
      FailingIsFirstError();
      r := Raised(error);
    }

    /**
     * One `SplunkLogsScan` call. `body` is what the request would return if it is still to be made.
     */
    method Scan(body: Option<string>) returns (r: ScanResult)
      requires Valid()
      modifies this
      ensures Valid()
      ensures old(fetched) ==> fetched && response == old(response)
      ensures !old(fetched) && fetched ==> body == Some(response)
      ensures fetched ==> Returned(r, old(handed), old(lost))
      ensures !fetched ==> r == RequestFailed && body.None? && handed == [] && lost == []
    {
      if !fetched {
        assert |handed| + |lost| == 0;
        var ok := Fetch(body);
        if !ok { return RequestFailed; }
      }
      r := FillChunk();
    }

    /** A call that raises never returns the chunk it was filling. */
    method Abandon()
      requires Placed() && earlier == handed + lost
      modifies this`lost, this`output, this`earlier
      ensures Placed() && earlier == handed + lost && output == [] && lost == old(lost) + old(output)
      ensures buffer == [] ==> decoded == handed + lost
    {
      lost := lost + output;
      assert (handed + old(lost)) + (output + buffer) == (handed + lost) + ([] + buffer);
      output, earlier := [], handed + lost;
    }

    method HandOver() returns (rows: seq<Row>)
      requires Placed() && earlier == handed + lost && lost == []
      modifies this`handed, this`output, this`earlier
      ensures Placed() && earlier == handed + lost && output == []
      ensures rows == old(output) && handed == old(handed) + rows
    {
      rows := output;
      assert earlier + (output + buffer) == (handed + output) + ([] + buffer);
      handed, output := handed + rows, [];
      earlier := handed + lost;
    }

    /** An executor's view: the rows of all earlier calls, and the result of the last one. */
    ghost predicate Collected(body: Option<string>, rows: seq<Row>, last: ScanResult)
      reads this
    {
      && Valid()
      && match last
         case Chunk(more) =>
           && fetched && body == Some(response) && handed == rows + more && lost == []
           && (more != [] ==> IsMultiple(|rows|, vectorSize))
           && |more| <= vectorSize && (|more| < vectorSize ==> Exhausted())
         case Raised(e) =>
           && fetched && body == Some(response) && handed == rows && Meant() == Meaning(rows + lost, Some(e))
           && IsMultiple(|rows|, vectorSize) && |lost| < vectorSize
         case RequestFailed => body.None? && rows == []
    }

    method FirstScan(body: Option<string>) returns (last: ScanResult)
      requires Valid() && !fetched
      modifies this
      ensures Collected(body, [], last)
    {
      assert |handed| + |lost| == 0;
      last := Scan(body);
      assert fetched && last.Chunk? ==> [] + last.rows == last.rows;
      assert fetched && last.Raised? ==> handed == [];
    }

    /** One more call after a non-empty chunk: nothing can follow a short one. */
    method ScanAgain(body: Option<string>, ghost rows: seq<Row>, ghost more: seq<Row>) returns (last: ScanResult)
      requires Collected(body, rows, Chunk(more)) && more != []
      modifies this
      ensures Collected(body, rows + more, last) && response == old(response)
      ensures |rows| < |rows + more| <= |Meant().rows|
    {
      DecodedIsPrefix();
      ghost var ended := Exhausted();
      if ended {
        ExhaustedIsComplete();
        assert decoded == handed;
      }
      last := Scan(body);
      if ended && last.Chunk? {
        DecodedIsPrefix();
        assert last.rows == [];
      }
    }

    /**
     * An executor: scans until a call returns no rows or raises. On an error it has got exactly the whole
     * vectors before it; the rows of the vector that was being filled are lost.
     */
    method ScanToEnd(body: Option<string>) returns (rows: seq<Row>, last: ScanResult)
      requires Valid() && !fetched
      modifies this
      ensures match last
              case Chunk(none) => none == [] && body == Some(response) && Meant() == Meaning(rows, None)
              case Raised(e) =>
                body == Some(response) && Meant().error == Some(e) && rows == WholeVectors(Meant().rows, vectorSize)
              case RequestFailed => body.None? && rows == []
    {
      rows := [];
      last := FirstScan(body);
      while last.Chunk? && last.rows != []
        invariant Collected(body, rows, last)
        decreases |Meant().rows| - |rows|
      {
        var more := last.rows;
        last := ScanAgain(body, rows, more);
        rows := rows + more;
      }
      if last.Chunk? {
        ExhaustedIsComplete();
        assert decoded == rows;
      } else if last.Raised? {
        WholeVectorsOf(rows, lost, vectorSize);
      }
    }
  }
}
