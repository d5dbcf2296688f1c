/** What the native scan guarantees in every interleaving. */
module ScanTheorems {
  import opened Common
  import opened ExportRecords
  import opened Lines
  import opened Reference
  import RetryPolicy
  import opened ScanInvariant
  import opened ScanMachine

  //------------------------------------------------------------------ what is delivered

  /** `body` is what the request delivers: an extension of the bytes so far, and those bytes once it ended. */
  predicate Completes(s: State, body: string) {
    s.stream <= body && (s.p.ended ==> body == s.stream)
  }

  /** The lines parsed so far are the first lines of the body. */
  lemma DoneIsPrefix(s: State, body: string) returns (ahead: seq<string>)
    requires TextInv(s) && Completes(s, body)
    ensures SplitLines(body) == s.done + ahead
    ensures s.p.ended && s.p.rest == "" ==> ahead == []
  {
    if s.p.lastLine {
      var n := |s.done| - 1;
      assert s.done == s.done[..n] + [s.done[n]];
      SplitWithTail(s.done[..n], s.done[n]);
      ahead := [];
    } else {
      var more := s.p.rest + body[|s.stream|..];
      assert body == Unlines(s.done) + more;
      SplitAfter(s.done, more);
      ahead := SplitLines(more);
    }
  }

  /**
   * In every interleaving, for every network behaviour: the rows returned by all calls so far, the
   * chunk being filled and the buffer are, in this order, a prefix of what the response means.
   */
  lemma RowsArePrefix(cfg: Config, s: State, body: string)
    requires Reachable(cfg, s) && Completes(s, body)
    ensures Pushed(s) <= NativeMeaning(cfg.cap, BodyMeaning(cfg.parser, body)).rows
    ensures Emitted(s.c.scans) <= NativeMeaning(cfg.cap, BodyMeaning(cfg.parser, body)).rows
  {
    InvReachable(cfg, s);
    var ahead := DoneIsPrefix(s, body);
    MeaningAppend(cfg.parser, s.done, ahead);
    var m, full := MeaningOf(cfg.parser, s.done), BodyMeaning(cfg.parser, body);
    assert m.rows <= full.rows;
    assert Pushed(s) == full.rows[..s.p.produced];
    assert Emitted(s.c.scans) == Pushed(s)[..|Emitted(s.c.scans)|];
  }

  function SearchErrorOf(failure: Option<Failure>): Option<SearchError> {
    match failure case Some(Search(e)) => Some(e) case _ => None
  }

  /**
   * Once the producer has finished an undisturbed scan whose request did not fail, the rows pushed and
   * the error kept for the scanning thread are exactly what the response means, whatever the schedule.
   */
  lemma FinishedIsExact(cfg: Config, s: State, body: string)
    requires Reachable(cfg, s) && Completes(s, body)
    requires s.finished && !s.cancelled && !s.interrupted
    requires !(s.error.Some? && s.error.value.Request?)
    ensures Meaning(Pushed(s), SearchErrorOf(s.error)) == NativeMeaning(cfg.cap, BodyMeaning(cfg.parser, body))
  {
    InvReachable(cfg, s);
    var ahead := DoneIsPrefix(s, body);
    MeaningAppend(cfg.parser, s.done, ahead);
    var m, more := MeaningOf(cfg.parser, s.done), MeaningOf(cfg.parser, ahead);
    BoundedSettles(CapBound(cfg.cap), m, more);
    assert s.p.queue == [] && s.error == s.p.caught;
    if s.p.caught.None? && !s.p.limitReached {
      assert ahead == [] && m.rows + [] == m.rows;
    }
  }

  /** A call that returns no rows comes only after the producer has finished and the buffer is empty. */
  lemma EmptyChunkMeansEnd(cfg: Config, s: State)
    requires Reachable(cfg, s) && SawEnd(s)
    ensures s.finished && s.buffer == [] && s.error.None?
    ensures Pushed(s) == Emitted(s.c.scans)
  {
    InvReachable(cfg, s);
    assert Emitted(s.c.scans) + ([] + []) == Emitted(s.c.scans);
  }

  /** At the end of an undisturbed scan, all calls together returned exactly what the response means. */
  lemma EndIsComplete(cfg: Config, s: State, body: string)
    requires Reachable(cfg, s) && Completes(s, body)
    requires SawEnd(s) && !s.cancelled && !s.interrupted
    ensures Meaning(Emitted(s.c.scans), None) == NativeMeaning(cfg.cap, BodyMeaning(cfg.parser, body))
  {
    EmptyChunkMeansEnd(cfg, s);
    FinishedIsExact(cfg, s, body);
  }

  /** A request that fails finds all complete lines parsed and pushed. */
  lemma CompleteLinesPushed(cfg: Config, s: State)
    requires Reachable(cfg, s) && s.p.caught.Some? && s.p.caught.value.Request?
    ensures s.done == Complete(s.stream) && s.p.rest == Tail(s.stream)
    ensures MeaningOf(cfg.parser, s.done).error.None?
    ensures Pushed(s) == MeaningOf(cfg.parser, s.done).rows
    ensures cfg.cap > 0 ==> |Pushed(s)| <= cfg.cap
  {
    InvReachable(cfg, s);
    SplitOfUnlines(s.done, s.p.rest);
    NewlineFree(s.p.rest);
    assert s.done + [] == s.done;
    var m := MeaningOf(cfg.parser, s.done);
    assert m.rows[..|m.rows|] == m.rows;
  }

  /**
   * The branch after the wait was taken: the producer gave up on a row because the scan was cancelled or
   * interrupted, and not because the cap was used up.
   */
  predicate GaveUp(cfg: Config, s: State) {
    s.p.limitReached && !(cfg.cap > 0 && s.p.produced == cfg.cap)
  }

  /** That branch, and an error left unstored, both need an interrupt or a cancellation. */
  lemma OnlyIfDisturbed(cfg: Config, s: State)
    requires Reachable(cfg, s)
    ensures GaveUp(cfg, s) ==> s.interrupted || s.cancelled
    ensures SawEnd(s) && s.p.caught.Some? ==> s.cancelled
  {
    InvReachable(cfg, s);
  }

  /**
   * Disturbed or not, a scan that ends normally is complete exactly if the producer neither gave up on a
   * row nor left an exception unstored.
   */
  lemma EndIsCompleteExactly(cfg: Config, s: State, body: string)
    requires Reachable(cfg, s) && Completes(s, body) && SawEnd(s)
    requires !(s.p.caught.Some? && s.p.caught.value.Request?)
    ensures Meaning(Emitted(s.c.scans), None) == NativeMeaning(cfg.cap, BodyMeaning(cfg.parser, body))
            <==> !GaveUp(cfg, s) && s.p.caught.None?
  {
    InvReachable(cfg, s);
    EmptyChunkMeansEnd(cfg, s);
    var ahead := DoneIsPrefix(s, body);
    MeaningAppend(cfg.parser, s.done, ahead);
    if s.p.caught.None? && !s.p.limitReached { assert s.done + ahead == s.done; }
    PushedIsAll(cfg, s, MeaningOf(cfg.parser, s.done), MeaningOf(cfg.parser, ahead));
  }

  /** What a finished producer pushed is all that counts exactly if it did not stop early. */
  lemma PushedIsAll(cfg: Config, s: State, m: Meaning, more: Meaning)
    requires PhaseInv(s) && RowInv(cfg, s, m) && s.finished
    requires !(s.p.caught.Some? && s.p.caught.value.Request?)
    requires s.p.caught.None? && !s.p.limitReached ==> Then(m, more) == m
    ensures Meaning(Pushed(s), None) == NativeMeaning(cfg.cap, Then(m, more)) <==> !GaveUp(cfg, s) && s.p.caught.None?
  {
    BoundedSettles(CapBound(cfg.cap), m, more);
  }

  /**
   * A request failure left unstored: a cancelled scan then ends normally with the rows of the complete
   * lines received, which is complete exactly if the bytes that never came would have added nothing.
   */
  lemma SwallowedFailure(cfg: Config, s: State, cause: RetryPolicy.Finish, body: string)
    requires Reachable(cfg, s) && Completes(s, body) && SawEnd(s)
    requires s.p.caught == Some(Request(cause))
    ensures s.cancelled
    ensures Emitted(s.c.scans) == MeaningOf(cfg.parser, Complete(s.stream)).rows
    ensures var missed := BodyMeaning(cfg.parser, Tail(s.stream) + body[|s.stream|..]);
            Meaning(Emitted(s.c.scans), None) == NativeMeaning(cfg.cap, BodyMeaning(cfg.parser, body))
            <==> missed == Meaning([], None) || (cfg.cap > 0 && |Emitted(s.c.scans)| == cfg.cap && missed.rows != [])
  {
    OnlyIfDisturbed(cfg, s);
    EmptyChunkMeansEnd(cfg, s);
    CompleteLinesPushed(cfg, s);
    SplitRebuilds(s.stream);
    var more := body[|s.stream|..];
    assert body == Unlines(Complete(s.stream)) + (Tail(s.stream) + more);
    SplitAfter(Complete(s.stream), Tail(s.stream) + more);
    MeaningAppend(cfg.parser, Complete(s.stream), SplitLines(Tail(s.stream) + more));
    AddsNothing(cfg.cap, MeaningOf(cfg.parser, Complete(s.stream)), BodyMeaning(cfg.parser, Tail(s.stream) + more));
  }

  /** When more of a response does not change what is delivered. */
  lemma AddsNothing(cap: nat, m: Meaning, more: Meaning)
    requires m.error.None? && (cap > 0 ==> |m.rows| <= cap)
    ensures m == NativeMeaning(cap, Then(m, more))
            <==> more == Meaning([], None) || (cap > 0 && |m.rows| == cap && more.rows != [])
  {
    assert more.rows == [] ==> m.rows + more.rows == m.rows;
    assert |m.rows + more.rows| == |m.rows| + |more.rows|;
  }

  /**
   * A call that raises a search error raises the first one of the response; the rows pushed are those
   * of all earlier lines, within the cap, and no later line was parsed. This holds even for a scan that
   * is cancelled or interrupted.
   */
  lemma RaisedSearchErrorIsFirst(cfg: Config, s: State, body: string, e: SearchError)
    requires Reachable(cfg, s) && Completes(s, body)
    requires Raised(Search(e)) in s.c.scans
    ensures NativeMeaning(cfg.cap, BodyMeaning(cfg.parser, body)) == Meaning(Pushed(s), Some(e))
    ensures Pushed(s) == MeaningOf(cfg.parser, s.done).rows
    ensures s.done != [] && cfg.parser(s.done[|s.done| - 1]) == Fails(e)
  {
    InvReachable(cfg, s);
    var ahead := DoneIsPrefix(s, body);
    MeaningAppend(cfg.parser, s.done, ahead);
    var m := MeaningOf(cfg.parser, s.done);
    BoundedSettles(CapBound(cfg.cap), m, MeaningOf(cfg.parser, ahead));
    assert s.error == Some(Search(e));
    assert s.p.caught == Some(Search(e));
    assert m.rows[..|m.rows|] == m.rows;
  }

  /** After a request failure nothing but complete lines was parsed: the unterminated tail is no row. */
  lemma RequestFailureKeepsTail(cfg: Config, s: State, cause: RetryPolicy.Finish)
    requires Reachable(cfg, s) && s.error == Some(Request(cause))
    ensures s.done == Complete(s.stream) && s.p.rest == Tail(s.stream)
    ensures Pushed(s) == MeaningOf(cfg.parser, Complete(s.stream)).rows
    ensures cfg.cap > 0 ==> |Pushed(s)| <= cfg.cap
  {
    InvReachable(cfg, s);
    CompleteLinesPushed(cfg, s);
  }

  //------------------------------------------------------------------ safety of the buffer

  lemma BufferIsBounded(cfg: Config, s: State)
    requires Reachable(cfg, s)
    ensures |s.buffer| <= 2 * cfg.vectorSize
    ensures cfg.cap > 0 ==> |Pushed(s)| <= cfg.cap
    ensures forall scan :: scan in s.c.scans && scan.Delivered? ==> |scan.rows| <= cfg.vectorSize
  {
    InvReachable(cfg, s);
  }

  lemma PushGrows(s: State)
    requires s.p.queue != []
    ensures Pushed(Push(s)) == Pushed(s) + if s.cancelled || s.interrupted then [] else [s.p.queue[0]]
  {
  }

  /** The rows are where they were. */
  predicate SameRows(s: State, t: State) {
    t.buffer == s.buffer && t.c.scans == s.c.scans && t.c.output == s.c.output
  }

  lemma ParseLineKeepsRows(s: State, line: string, outcome: LineOutcome, more: string, last: bool)
    ensures SameRows(s, ParseLine(s, line, outcome, more, last))
  {
  }

  lemma SplitKeepsRows(cfg: Config, s: State)
    ensures SameRows(s, Split(cfg, s))
  {
    if !s.p.limitReached {
      match CutLine(s.p.rest)
      case NoLine =>
      case Cut(line, more) => ParseLineKeepsRows(s, line, cfg.parser(line), more, false);
    }
  }

  lemma FlushKeepsRows(cfg: Config, s: State)
    ensures SameRows(s, Flush(cfg, s))
  {
    ParseLineKeepsRows(s, s.p.rest, cfg.parser(s.p.rest), "", true);
  }

  lemma EmitKeepsRows(cfg: Config, s: State)
    ensures SameRows(s, Emit(cfg, s))
  {
  }

  lemma OtherProducerSteps(cfg: Config, s: State)
    requires ProducerEnabled(s) && s.p.at != Deciding
    ensures SameRows(s, ProducerNext(cfg, s))
  {
    match s.p.at
    case Splitting => SplitKeepsRows(cfg, s);
    case Flushing => FlushKeepsRows(cfg, s);
    case Emitting => EmitKeepsRows(cfg, s);
    case _ =>
  }

  lemma OutsideKeepsRows(s: State, a: Action)
    ensures SameRows(s, Outside(s, a))
  {
  }

  /** No step loses, reorders or repeats a row, and once `cancelled` or `finished` is set none enters. */
  lemma RowsOnlyGrow(cfg: Config, s: State, a: Action)
    requires Reachable(cfg, s) && Enabled(s, a)
    ensures Pushed(s) <= Pushed(Next(cfg, s, a))
    ensures s.cancelled || s.finished ==> Pushed(Next(cfg, s, a)) == Pushed(s)
  {
    InvReachable(cfg, s);
    match a
    case ScannerStep => ScannerKeepsRows(cfg, s);
    case ProducerStep => ProducerGrows(cfg, s);
    case _ => OutsideKeepsRows(s, a);
  }

  lemma ProducerGrows(cfg: Config, s: State)
    requires PhaseInv(s) && ProducerEnabled(s)
    ensures Pushed(s) <= Pushed(ProducerNext(cfg, s))
    ensures s.cancelled || s.finished ==> Pushed(ProducerNext(cfg, s)) == Pushed(s)
  {
    if s.p.at == Deciding { PushGrows(s); } else { OtherProducerSteps(cfg, s); }
  }

  //------------------------------------------------------------------ liveness

  predicate AsleepUnnotified(s: State) {
    s.p.at == Sleeping && !s.p.notified
  }

  predicate DozingUnnotified(s: State) {
    s.c.at == Dozing && !s.c.notified
  }

  /** The two threads are never both asleep with no notification on its way. */
  lemma NeverBothAsleep(cfg: Config, s: State)
    requires Reachable(cfg, s)
    ensures !(AsleepUnnotified(s) && DozingUnnotified(s))
  {
    InvReachable(cfg, s);
  }

  /** No lost wakeup: a sleeper's condition is still false, or the other thread is about to notify. */
  lemma NoLostWakeup(cfg: Config, s: State)
    requires Reachable(cfg, s)
    ensures AsleepUnnotified(s) ==>
              (|s.buffer| == 2 * cfg.vectorSize && !s.cancelled)
              || s.c.at == Draining || s.c.at == Freeing || s.c.at == Halting || s.c.at == Waiving
    ensures DozingUnnotified(s) ==>
              (s.buffer == [] && !s.finished && s.error.None?)
              || s.p.at == Notifying || s.p.at == Finishing || s.p.at == Announcing
  {
    InvReachable(cfg, s);
  }

  /** Some thread can move by itself: without a spurious or timed wakeup, an interrupt, or the network. */
  predicate CanMove(s: State) {
    || ProducerEnabled(s) || (s.p.at == Sleeping && s.p.notified)
    || ScannerEnabled(s) || (s.c.at == Dozing && s.c.notified)
  }

  /** No deadlock: during a call or the destructor something can move, or the network is awaited. */
  lemma NeverStuck(cfg: Config, s: State)
    requires Reachable(cfg, s)
    requires s.c.at != Idle && s.c.at != Destroyed && s.p.at != Receiving
    ensures CanMove(s)
  {
    InvReachable(cfg, s);
    SomebodyMoves(cfg, s);
  }

  lemma SomebodyMoves(cfg: Config, s: State)
    requires LockInv(s) && PhaseInv(s) && BufferInv(cfg, s) && WakeInv(cfg, s)
    requires s.p.at == Deciding ==> s.p.queue != []
    requires s.c.at != Idle && s.c.at != Destroyed && s.p.at != Receiving
    ensures CanMove(s)
  {
    if s.mutex == Producer || s.mutex == Scanner {
      assert ProducerEnabled(s) || ScannerEnabled(s);
    } else if s.p.at == Exited || s.p.at == Unstarted || AsleepUnnotified(s) {
      assert ScannerEnabled(s) || (s.c.at == Dozing && s.c.notified);
    } else {
      assert ProducerEnabled(s) || (s.p.at == Sleeping && s.p.notified);
    }
  }

  /** The destructor's join waits for the network at most: otherwise the producer itself can move. */
  lemma JoinNeverBlocked(cfg: Config, s: State)
    requires Reachable(cfg, s) && s.c.at == Joining
    ensures s.cancelled && !AsleepUnnotified(s)
    ensures s.p.at == Unstarted || s.p.at == Exited || s.p.at == Receiving
            || ProducerEnabled(s) || (s.p.at == Sleeping && s.p.notified)
  {
    InvReachable(cfg, s);
  }
}
