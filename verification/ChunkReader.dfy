/**
 * The producer's parsing state: reassembles lines from arbitrary network chunks, maps their events,
 * and stops at the row cap or when the scan is cancelled.
 */
module ChunkReader {
  import opened Common
  import opened EventMapping
  import opened ExportRecords
  import opened Lines
  import opened Reference

  /** How a callback, or the whole export, ended. */
  datatype Progress = More | Stopped | Threw(error: SearchError) | Failed

  /** `pushed` and the ending `r` are what the bound makes of the meaning `m`. */
  predicate Delivered(bound: Option<nat>, m: Meaning, pushed: seq<Row>, r: Progress) {
    && pushed == Bounded(bound, m).rows
    && match r
       case More => !Exceeds(bound, m.rows) && m.error.None?
       case Stopped => Exceeds(bound, m.rows)
       case Threw(e) => Bounded(bound, m).error == Some(e)
       case Failed => false
  }

  /** The smaller of the row cap and the cancellation point. */
  function BoundOf(cap: nat, cancelledAt: Option<nat>): Option<nat> {
    match (CapBound(cap), cancelledAt)
    case (Some(c), Some(k)) => Some(if c <= k then c else k)
    case (Some(c), None) => Some(c)
    case (None, k) => k
  }

  /** Everything in `m` was pushed and no row was refused. */
  predicate HoldsAll(bound: Option<nat>, m: Meaning, pushed: seq<Row>, produced: nat, limitReached: bool) {
    Delivered(bound, m, pushed, More) && produced == |pushed| && !limitReached
  }

  /** Between two callbacks: all complete lines are delivered and the tail is pending. */
  predicate ReadyWith(parser: LineParser, bound: Option<nat>, stream: string, pending: string,
                      pushed: seq<Row>, produced: nat, limitReached: bool) {
    HoldsAll(bound, MeaningOf(parser, Complete(stream)), pushed, produced, limitReached) && pending == Tail(stream)
  }

  /** A stop or an error is settled by the lines that caused it. */
  lemma DeliverySettles(parser: LineParser, bound: Option<nat>, lines: seq<string>, more: seq<string>,
                        pushed: seq<Row>, r: Progress)
    requires Delivered(bound, MeaningOf(parser, lines), pushed, r) && r != More
    ensures Delivered(bound, MeaningOf(parser, lines + more), pushed, r)
  {
    MeaningAppend(parser, lines, more);
    BoundedSettles(bound, MeaningOf(parser, lines), MeaningOf(parser, more));
  }

  class Reader {
    /** What each line yields: parsing, event extraction and projection together. */
    const parser: LineParser
    const cap: nat
    /** The row at which the wait for buffer space ends because the scan was cancelled, if any. */
    const cancelledAt: Option<nat>

    var pending: string
    var produced: nat
    var limitReached: bool
    /** Every row pushed into the shared buffer, in order. */
    var pushed: seq<Row>
    /** All bytes received so far. */
    ghost var stream: string

    constructor (parser: LineParser, cap: nat, cancelledAt: Option<nat>)
      ensures Ready() && stream == "" && pushed == []
      ensures this.parser == parser && this.cap == cap && this.cancelledAt == cancelledAt
    {
      this.parser, this.cap, this.cancelledAt := parser, cap, cancelledAt;
      pending, produced, limitReached, pushed, stream := "", 0, false, [], "";
    }

    function Bound(): Option<nat> {
      BoundOf(cap, cancelledAt)
    }

    ghost predicate Holds(m: Meaning)
      reads this
    {
      HoldsAll(Bound(), m, pushed, produced, limitReached)
    }

    ghost predicate Ready()
      reads this
    {
      ReadyWith(parser, Bound(), stream, pending, pushed, produced, limitReached)
    }

    /** Parses one line; `lines` are the lines already parsed. */
    method ParseLine(line: string, ghost lines: seq<string>) returns (r: Progress)
      requires Holds(MeaningOf(parser, lines))
      modifies this`produced, this`limitReached, this`pushed
      ensures Delivered(Bound(), MeaningOf(parser, lines + [line]), pushed, r)
      ensures limitReached <==> r == Stopped
      ensures r == More ==> produced == |pushed|
    {
      MeaningSnoc(parser, lines, line);
      match parser(line)
      case Fails(e) =>
        assert pushed + [] == pushed;
        r := Threw(e);
      case Yields(rows) =>
        PushRows(rows);
        r := if limitReached then Stopped else More;
    }

    /** The record's events go through the callback one by one. */
    method PushRows(rows: seq<Row>)
      requires !limitReached && produced == |pushed| && !Exceeds(Bound(), pushed)
      modifies this`produced, this`limitReached, this`pushed
      ensures var all := old(pushed) + rows;
              && pushed == Upto(Bound(), all)
              && (limitReached <==> Exceeds(Bound(), all))
              && (!limitReached ==> produced == |pushed|)
    {
      ghost var base := pushed;
      var i := 0;
      assert base + rows[..0] == base;
      while i < |rows|
        invariant 0 <= i <= |rows|
        invariant pushed == Upto(Bound(), base + rows[..i])
        invariant limitReached <==> Exceeds(Bound(), base + rows[..i])
        invariant !limitReached ==> produced == |pushed|
      {
        OfferRow(Bound(), base, rows, i);
        OnRow(rows[i]);
        i := i + 1;
      }
      assert rows[..|rows|] == rows;
    }

    /** The event callback: skip, notice the cap, find the scan cancelled, or push one row. */
    method OnRow(row: Row)
      requires !limitReached ==> produced == |pushed| && !Exceeds(Bound(), pushed)
      modifies this`produced, this`limitReached, this`pushed
      ensures var full := old(limitReached) || Bound() == Some(|old(pushed)|);
              && limitReached == full
              && pushed == (if full then old(pushed) else old(pushed) + [row])
              && (!full ==> produced == |pushed|)
    {
      if limitReached { return; }
      if cap > 0 && produced >= cap {
        limitReached := true;
        return;
      }
      if cancelledAt == Some(produced) {
        limitReached := true;
        return;
      }
      pushed := pushed + [row];
      produced := produced + 1;
    }

    /** The lines `fed` are parsed with ending `r`, and the bytes from `start` on are not. */
    ghost predicate ParsedUpTo(fed: seq<string>, start: nat, r: Progress)
      reads this
    {
      && start <= |pending| && CutAt(stream, fed, pending[start..])
      && Delivered(Bound(), MeaningOf(parser, fed), pushed, r)
      && (limitReached <==> r == Stopped)
      && (r == More ==> produced == |pushed|)
    }

    /** Parses the line that ends at `newline`. */
    method ParseAt(start: nat, newline: nat, ghost fed: seq<string>) returns (r: Progress, ghost after: seq<string>)
      requires ParsedUpTo(fed, start, More)
      requires start <= newline < |pending|
      requires !HasNewline(pending[start..newline]) && pending[newline] == '\n'
      modifies this`produced, this`limitReached, this`pushed
      ensures ParsedUpTo(after, newline + 1, r)
    {
      CutNextLine(stream, fed, pending, start, newline);
      r := ParseLine(pending[start..newline], fed);
      after := fed + [pending[start..newline]];
    }

    /**
     * The newline loop over `pending`; `fed` are the lines already parsed and `after` those parsed at
     * its end. Stops at the first line that raises, when the limit is hit, or without a newline left.
     */
    method ParsePending(ghost fed: seq<string>) returns (start: nat, r: Progress, ghost after: seq<string>)
      requires ParsedUpTo(fed, 0, More)
      modifies this`produced, this`limitReached, this`pushed
      ensures ParsedUpTo(after, start, r)
      ensures r == More ==> !HasNewline(pending[start..])
    {
      start, r, after := 0, More, fed;
      while !limitReached
        invariant ParsedUpTo(after, start, r)
        invariant r == More || r == Stopped
        decreases |pending| - start, !limitReached
      {
        var newline := Find(pending, start);
        if newline == |pending| { return; }
        NothingYetRefused(after, start, r);
        r, after := ParseAt(start, newline, after);
        start := newline + 1;
        if r.Threw? { return; }
      }
      NothingYetRefused(after, start, r);
    }

    lemma NothingYetRefused(fed: seq<string>, start: nat, r: Progress)
      requires ParsedUpTo(fed, start, r) && (r == More || r == Stopped)
      ensures start <= |pending| && (limitReached <==> r == Stopped)
    {
    }

    /** The network callback: append, parse the complete lines, keep the rest. */
    method OnChunk(data: string) returns (r: Progress)
      requires Ready()
      modifies this
      ensures stream == old(stream) + data
      ensures Delivered(Bound(), MeaningOf(parser, Complete(stream)), pushed, r)
      ensures r == More ==> Ready()
    {
      CutOfAppend(stream, data);
      ghost var fed := Complete(stream);
      pending := pending + data;
      stream := stream + data;
      assert pending[0..] == pending;
      var start;
      start, r, fed := ParsePending(fed);
      ghost var rest := pending[start..];
      if r == More {
        CutFinished(stream, fed, rest);
      } else {
        DeliverySettles(parser, Bound(), fed, Complete(rest), pushed, r);
      }
      if start > 0 && !r.Threw? {
        pending := pending[start..];
      }
    }

    /**
     * The body of the producer's `try` block, for a network that offers `chunks` and then ends
     * normally or fails. The result depends on the bytes only, not on how they were cut.
     */
    method Export(chunks: seq<string>, networkFails: bool) returns (r: Progress)
      requires Ready() && stream == ""
      modifies this
      ensures !networkFails ==> Delivered(Bound(), BodyMeaning(parser, Flatten(chunks)), pushed, r)
      ensures networkFails ==>
                Delivered(Bound(), MeaningOf(parser, Complete(Flatten(chunks))), pushed, if r == Failed then More else r)
                && r != More
    {
      ghost var body := Flatten(chunks);
      var i := 0;
      assert chunks[..0] == [] && chunks[..|chunks|] == chunks;
      while i < |chunks|
        invariant 0 <= i <= |chunks|
        invariant Ready() && stream == Flatten(chunks[..i])
      {
        assert chunks[..i + 1] == chunks[..i] + [chunks[i]];
        FlattenSnoc(chunks[..i], chunks[i]);
        r := OnChunk(chunks[i]);
        i := i + 1;
        if r != More {
          assert chunks == chunks[..i] + chunks[i..];
          FlattenAppend(chunks[..i], chunks[i..]);
          SplitExtends(stream, Flatten(chunks[i..]));
          var more := Complete(Tail(stream) + Flatten(chunks[i..]));
          DeliverySettles(parser, Bound(), Complete(stream), more, pushed, r);
          ghost var last := if Tail(body) == "" then [] else [Tail(body)];
          DeliverySettles(parser, Bound(), Complete(body), last, pushed, r);
          return;
        }
      }
      if networkFails { return Failed; }
      if !limitReached && pending != "" {
        r := ParseLine(pending, Complete(stream));
      } else {
        assert Complete(stream) + [] == Complete(stream);
        r := More;
      }
    }
  }
}
