/** What every step of the native scan keeps. */
module ScanInvariant {
  import opened Common
  import opened EventMapping
  import opened ExportRecords
  import opened Lines
  import opened Reference
  import opened ScanMachine

  //------------------------------------------------------------------ the invariant: control

  predicate AtTheEnd(at: ProducerAt) {
    at == Finishing || at == Announcing || at == Exited
  }

  /** Between choosing a row and pushing or abandoning it. */
  predicate HasRowInHand(at: ProducerAt) {
    at == Locking || at == Blocking || at == Sleeping || at == Deciding
  }

  predicate InDestructor(at: ScannerAt) {
    at == Cancelling || at == Waiving || at == Joining || at == Destroyed
  }

  /** Mutual exclusion: the mutex is held exactly where the program says so. */
  predicate LockInv(s: State) {
    && (s.mutex == Producer <==> s.p.at == Blocking || s.p.at == Deciding)
    && (s.mutex == Scanner <==> s.c.at == Polling || s.c.at == Draining)
  }

  /** Where the producer is, and what the flags say about it. */
  predicate PhaseInv(s: State) {
    && (s.p.at == Unstarted ==> !s.p.limitReached && (s.c.at == Idle || InDestructor(s.c.at)))
    && (HasRowInHand(s.p.at) ==> s.p.queue != [] && !s.p.limitReached)
    && (s.p.at == Receiving ==> !s.p.limitReached)
    && (s.p.queue != [] ==> s.p.at == Emitting || HasRowInHand(s.p.at) || s.p.at == Notifying)
    && (s.p.at == Catching ==> s.p.caught.Some?)
    && (s.p.caught.Some? ==> !s.p.limitReached && (s.p.at == Catching || AtTheEnd(s.p.at)))
    && (s.finished <==> s.p.at == Announcing || s.p.at == Exited)
    && (s.error.Some? ==> s.error == s.p.caught && AtTheEnd(s.p.at))
    && (AtTheEnd(s.p.at) && s.p.caught.Some? ==> s.error == s.p.caught || s.cancelled)
  }

  /** The bounded buffer, and what each thread knows while it holds the mutex. */
  predicate BufferInv(cfg: Config, s: State) {
    && cfg.vectorSize > 0
    && |s.buffer| <= cfg.Capacity()
    && (s.p.at == Deciding ==> s.cancelled || s.interrupted || |s.buffer| < cfg.Capacity())
    && (s.p.at == Blocking ==> |s.buffer| == cfg.Capacity() && !s.cancelled)
    && |s.c.output| <= cfg.vectorSize
    && (s.c.output != [] ==> s.c.at == Draining || s.c.at == Freeing)
    && (s.c.at == Polling ==> s.buffer == [] && !s.finished && s.error.None?)
    && (s.c.at == Waiving || s.c.at == Joining || s.c.at == Destroyed || s.c.at == Halting ==> s.cancelled)
  }

  /** No lost wakeup: a thread sleeps un-notified only while its condition is false or a notify is coming. */
  predicate WakeInv(cfg: Config, s: State) {
    && (s.p.at == Sleeping && !s.p.notified ==>
          (|s.buffer| == cfg.Capacity() && !s.cancelled)
          || s.c.at == Draining || s.c.at == Freeing || s.c.at == Halting || s.c.at == Waiving)
    && (s.c.at == Dozing && !s.c.notified ==>
          (s.buffer == [] && !s.finished && s.error.None?)
          || s.p.at == Notifying || s.p.at == Finishing || s.p.at == Announcing)
  }

  /** What is known once an empty chunk is on its way or was returned. */
  predicate EndInv(cfg: Config, s: State) {
    && (SawEnd(s) ==> s.finished && s.buffer == [] && s.c.output == [] && s.error.None?)
    && (s.c.at == Draining ==> s.error.None? && (s.c.output == [] && s.buffer == [] ==> s.finished))
    && (s.c.at == Freeing && s.c.output == [] ==> s.finished && s.buffer == [] && s.error.None?)
    && (forall scan :: scan in s.c.scans && scan.Raised? ==> s.error == Some(scan.failure))
    && (forall scan :: scan in s.c.scans && scan.Delivered? ==> |scan.rows| <= cfg.vectorSize)
  }

  predicate ControlInv(cfg: Config, s: State) {
    LockInv(s) && PhaseInv(s) && BufferInv(cfg, s) && WakeInv(cfg, s) && EndInv(cfg, s)
  }

  //------------------------------------------------------------------ the invariant: data

  /** The bytes received are the parsed lines and the rest. */
  predicate TextInv(s: State) {
    && NoNewlines(s.done)
    && (if s.p.lastLine then
          && s.done != [] && s.p.rest == "" && s.p.ended
          && s.done[|s.done| - 1] != ""
          && s.stream == Unlines(s.done[..|s.done| - 1]) + s.done[|s.done| - 1]
        else s.stream == Unlines(s.done) + s.p.rest)
  }

  /** Which bytes are left at the network read and after it. */
  predicate RestInv(s: State) {
    && (s.p.at == Unstarted ==> s.p.rest == "" && !s.p.lastLine)
    && (s.p.at == Receiving ==> !HasNewline(s.p.rest) && !s.p.lastLine)
    && (s.p.at == Splitting ==> !s.p.lastLine)
    && (s.p.at == Flushing ==> !s.p.lastLine && (s.p.limitReached || (s.p.ended && !HasNewline(s.p.rest))))
    && (s.p.caught.Some? && s.p.caught.value.Request? ==> !HasNewline(s.p.rest) && !s.p.lastLine)
    && (AtTheEnd(s.p.at) && s.p.caught.None? ==> s.p.limitReached || (s.p.ended && s.p.rest == ""))
  }

  /**
   * The rows pushed are the first `produced` rows of the parsed lines and the queue is the end of
   * them; pushing stopped only at a refused row, because the cap was exceeded or the scan cancelled or
   * interrupted.
   */
  predicate RowInv(cfg: Config, s: State, m: Meaning) {
    var p := s.p;
    && (match p.caught
        case Some(Search(e)) => m.error == Some(e) && s.done != [] && cfg.parser(s.done[|s.done| - 1]) == Fails(e)
        case _ => m.error.None?)
    && |p.queue| <= |m.rows| && p.queue == m.rows[|m.rows| - |p.queue|..]
    && p.produced + |p.queue| <= |m.rows|
    && Pushed(s) == m.rows[..p.produced]
    && (!p.limitReached ==> p.produced + |p.queue| == |m.rows|)
    && (p.limitReached ==> p.produced + |p.queue| < |m.rows|)
    && (p.limitReached ==>
          s.interrupted || s.cancelled || (cfg.cap > 0 && p.produced == cfg.cap && |m.rows| - |p.queue| > cfg.cap))
    && (cfg.cap > 0 ==> p.produced <= cfg.cap)
    && (HasRowInHand(p.at) && cfg.cap > 0 ==> p.produced < cfg.cap)
  }

  predicate DataInv(cfg: Config, s: State) {
    TextInv(s) && RestInv(s) && RowInv(cfg, s, MeaningOf(cfg.parser, s.done))
  }

  predicate Inv(cfg: Config, s: State) {
    ControlInv(cfg, s) && DataInv(cfg, s)
  }

  lemma InitialInv(cfg: Config)
    requires cfg.vectorSize > 0
    ensures Inv(cfg, Initial())
  {
    assert Emitted([]) == [];
    assert MeaningOf(cfg.parser, []) == Meaning([], None);
  }

  //------------------------------------------------------------------ control: step by step

  lemma ParseLineControl(cfg: Config, s: State, line: string, outcome: LineOutcome, more: string, last: bool)
    requires ControlInv(cfg, s) && (s.p.at == Splitting || s.p.at == Flushing) && !s.p.limitReached
    ensures ControlInv(cfg, ParseLine(s, line, outcome, more, last))
  {
  }

  lemma SplitControl(cfg: Config, s: State)
    requires ControlInv(cfg, s) && s.p.at == Splitting
    ensures ControlInv(cfg, Split(cfg, s))
  {
    if !s.p.limitReached {
      match CutLine(s.p.rest)
      case NoLine =>
      case Cut(line, more) => ParseLineControl(cfg, s, line, cfg.parser(line), more, false);
    }
  }

  lemma FlushControl(cfg: Config, s: State)
    requires ControlInv(cfg, s) && s.p.at == Flushing
    ensures ControlInv(cfg, Flush(cfg, s))
  {
    if !s.p.limitReached && s.p.rest != "" {
      ParseLineControl(cfg, s, s.p.rest, cfg.parser(s.p.rest), "", true);
    }
  }

  lemma EmitControl(cfg: Config, s: State)
    requires ControlInv(cfg, s) && s.p.at == Emitting
    ensures ControlInv(cfg, Emit(cfg, s))
  {
    if s.p.queue == [] {
      MoveControl(cfg, s, if s.p.lastLine then Finishing else Splitting);
    } else if s.p.limitReached || (cfg.cap > 0 && s.p.produced >= cfg.cap) {
      SkipControl(cfg, s, s.p.queue[1..]);
    } else {
      MoveControl(cfg, s, Locking);
    }
  }

  lemma SkipControl(cfg: Config, s: State, queue: seq<Row>)
    requires ControlInv(cfg, s) && s.p.at == Emitting
    ensures ControlInv(cfg, s.(p := s.p.(limitReached := true, queue := queue)))
  {
  }

  lemma MoveControl(cfg: Config, s: State, at: ProducerAt)
    requires ControlInv(cfg, s) && s.p.at == Emitting
    requires (at == Locking && s.p.queue != [] && !s.p.limitReached) || ((at == Splitting || at == Finishing) && s.p.queue == [])
    ensures ControlInv(cfg, s.(p := s.p.(at := at)))
  {
  }

  lemma WaitControl(cfg: Config, s: State)
    requires ControlInv(cfg, s) && ((s.p.at == Locking && s.mutex == Nobody) || s.p.at == Blocking)
    ensures ControlInv(cfg, Wait(cfg, s))
  {
  }

  lemma PushControl(cfg: Config, s: State)
    requires ControlInv(cfg, s) && s.p.at == Deciding
    ensures ControlInv(cfg, Push(s))
  {
  }

  lemma NotifyControl(cfg: Config, s: State)
    requires ControlInv(cfg, s) && s.p.at == Notifying
    ensures ControlInv(cfg, NotifyScanner(s.(p := s.p.(at := Emitting))))
  {
  }

  lemma CatchControl(cfg: Config, s: State, error: Option<Failure>)
    requires ControlInv(cfg, s) && s.p.at == Catching && s.mutex == Nobody
    requires error == if s.cancelled then s.error else s.p.caught
    ensures ControlInv(cfg, s.(error := error, p := s.p.(at := Finishing)))
  {
  }

  lemma FinishingControl(cfg: Config, s: State)
    requires ControlInv(cfg, s) && s.p.at == Finishing && s.mutex == Nobody
    ensures ControlInv(cfg, s.(finished := true, p := s.p.(at := Announcing)))
  {
  }

  lemma AnnounceControl(cfg: Config, s: State)
    requires ControlInv(cfg, s) && s.p.at == Announcing
    ensures ControlInv(cfg, NotifyScanner(s.(p := s.p.(at := Exited))))
  {
  }

  lemma FinishControl(cfg: Config, s: State)
    requires ControlInv(cfg, s)
    requires (s.p.at == Catching && s.mutex == Nobody) || (s.p.at == Finishing && s.mutex == Nobody) || s.p.at == Announcing
    ensures ControlInv(cfg, Finish(s))
  {
    match s.p.at
    case Catching => CatchControl(cfg, s, if s.cancelled then s.error else s.p.caught);
    case Finishing => FinishingControl(cfg, s);
    case _ => AnnounceControl(cfg, s);
  }

  lemma EnterPolls(cfg: Config, s: State)
    requires ControlInv(cfg, s) && s.c.at == Entering && s.mutex == Nobody
    requires s.buffer == [] && !s.finished && s.error.None?
    ensures ControlInv(cfg, s.(mutex := Scanner, c := s.c.(at := Polling)))
  {
  }

  lemma EnterRaises(cfg: Config, s: State)
    requires ControlInv(cfg, s) && s.c.at == Entering && s.mutex == Nobody && s.error.Some?
    ensures ControlInv(cfg, s.(c := s.c.(at := Idle, scans := s.c.scans + [Raised(s.error.value)])))
  {
  }

  lemma EnterDrains(cfg: Config, s: State)
    requires ControlInv(cfg, s) && s.c.at == Entering && s.mutex == Nobody
    requires s.error.None? && (s.buffer != [] || s.finished)
    ensures ControlInv(cfg, s.(mutex := Scanner, c := s.c.(at := Draining)))
  {
  }

  lemma EnterControl(cfg: Config, s: State)
    requires ControlInv(cfg, s) && s.c.at == Entering && s.mutex == Nobody
    ensures ControlInv(cfg, Enter(s))
  {
    if s.error.Some? {
      EnterRaises(cfg, s);
    } else if s.buffer == [] && !s.finished {
      EnterPolls(cfg, s);
    } else {
      EnterDrains(cfg, s);
    }
  }

  lemma PollControl(cfg: Config, s: State)
    requires ControlInv(cfg, s) && s.c.at == Polling
    ensures ControlInv(cfg, Poll(s))
  {
  }

  lemma TakeControl(cfg: Config, s: State)
    requires ControlInv(cfg, s) && s.c.at == Draining && |s.c.output| < cfg.vectorSize && s.buffer != []
    ensures ControlInv(cfg, s.(buffer := s.buffer[1..], c := s.c.(output := s.c.output + [s.buffer[0]])))
  {
  }

  lemma DrainedControl(cfg: Config, s: State)
    requires ControlInv(cfg, s) && s.c.at == Draining && (|s.c.output| >= cfg.vectorSize || s.buffer == [])
    ensures ControlInv(cfg, s.(mutex := Nobody, c := s.c.(at := Freeing)))
  {
  }

  lemma DrainControl(cfg: Config, s: State)
    requires ControlInv(cfg, s) && s.c.at == Draining
    ensures ControlInv(cfg, Drain(cfg, s))
  {
    if |s.c.output| < cfg.vectorSize && s.buffer != [] { TakeControl(cfg, s); } else { DrainedControl(cfg, s); }
  }

  lemma ReturnControl(cfg: Config, s: State)
    requires ControlInv(cfg, s) && s.c.at == Freeing
    ensures ControlInv(cfg, Leave(s))
  {
  }

  lemma ThrowControl(cfg: Config, s: State)
    requires ControlInv(cfg, s) && s.c.at == Halting
    ensures ControlInv(cfg, Leave(s))
  {
  }

  lemma LeaveControl(cfg: Config, s: State)
    requires ControlInv(cfg, s) && (s.c.at == Freeing || s.c.at == Halting)
    ensures ControlInv(cfg, Leave(s))
  {
    if s.c.at == Freeing { ReturnControl(cfg, s); } else { ThrowControl(cfg, s); }
  }

  lemma DestroyControl(cfg: Config, s: State)
    requires ControlInv(cfg, s)
    requires (s.c.at == Cancelling && s.mutex == Nobody) || s.c.at == Waiving || s.c.at == Joining
    ensures ControlInv(cfg, Destroy(s))
  {
  }

  lemma NetworkControl(cfg: Config, s: State, a: Action)
    requires ControlInv(cfg, s) && s.p.at == Receiving && (a.Chunk? || a.RequestEnds? || a.RequestFails?)
    ensures ControlInv(cfg, Outside(s, a))
  {
  }

  lemma WakeControl(cfg: Config, s: State, a: Action)
    requires ControlInv(cfg, s) && Enabled(s, a) && (a.ProducerWakes? || a.ScannerWakes?)
    ensures ControlInv(cfg, Outside(s, a))
  {
  }

  lemma CallControl(cfg: Config, s: State, a: Action)
    requires ControlInv(cfg, s) && Enabled(s, a) && (a == Interrupt || a == StartScan || a == StartDestroy)
    ensures ControlInv(cfg, Outside(s, a))
  {
  }

  lemma OutsideControl(cfg: Config, s: State, a: Action)
    requires ControlInv(cfg, s) && Enabled(s, a) && a != ProducerStep && a != ScannerStep
    ensures ControlInv(cfg, Outside(s, a))
  {
    match a
    case Chunk(_) => NetworkControl(cfg, s, a);
    case RequestEnds => NetworkControl(cfg, s, a);
    case RequestFails(_) => NetworkControl(cfg, s, a);
    case ProducerWakes(_) => WakeControl(cfg, s, a);
    case ScannerWakes(_) => WakeControl(cfg, s, a);
    case _ => CallControl(cfg, s, a);
  }

  //------------------------------------------------------------------ data: step by step

  lemma EmittedSnoc(scans: seq<Scan>, last: Scan)
    ensures Emitted(scans + [last]) == Emitted(scans) + match last case Delivered(rows) => rows case _ => []
  {
  }

  /** A step of the scanning thread: it may notify the producer and set flags, and keeps the rows pushed. */
  predicate KeepsProducer(s: State, t: State) {
    && t.p == s.p.(notified := t.p.notified) && t.stream == s.stream && t.done == s.done
    && t.interrupted == s.interrupted && (s.cancelled ==> t.cancelled)
    && Pushed(t) == Pushed(s)
  }

  /** Moving a row into the chunk, or the chunk into the log, leaves the rows pushed the same. */
  lemma DrainKeepsRows(cfg: Config, s: State)
    requires s.c.at == Draining
    ensures KeepsProducer(s, Drain(cfg, s))
  {
    var t := Drain(cfg, s);
    assert s.c.output + s.buffer == t.c.output + t.buffer;
  }

  lemma Regroup(a: seq<Row>, b: seq<Row>, c: seq<Row>)
    ensures (a + b) + ([] + c) == a + (b + c)
  {
  }

  lemma ReturnKeepsRows(s: State)
    requires s.c.at == Freeing
    ensures KeepsProducer(s, Leave(s))
  {
    EmittedSnoc(s.c.scans, Delivered(s.c.output));
    Regroup(Emitted(s.c.scans), s.c.output, s.buffer);
  }

  lemma ThrowKeepsRows(s: State)
    requires s.c.at == Halting
    ensures KeepsProducer(s, Leave(s))
  {
    EmittedSnoc(s.c.scans, Interrupted);
    assert Emitted(s.c.scans) + [] == Emitted(s.c.scans);
  }

  lemma EnterKeepsRows(s: State)
    ensures KeepsProducer(s, Enter(s))
  {
    if s.error.Some? {
      EmittedSnoc(s.c.scans, Raised(s.error.value));
      assert Emitted(s.c.scans) + [] == Emitted(s.c.scans);
    }
  }

  lemma PollKeepsRows(s: State)
    ensures KeepsProducer(s, Poll(s))
  {
  }

  lemma DestroyKeepsRows(s: State)
    ensures KeepsProducer(s, Destroy(s))
  {
  }

  lemma ScannerKeepsRows(cfg: Config, s: State)
    requires ScannerEnabled(s)
    ensures KeepsProducer(s, ScannerNext(cfg, s))
  {
    match s.c.at
    case Entering => EnterKeepsRows(s);
    case Polling => PollKeepsRows(s);
    case Draining => DrainKeepsRows(cfg, s);
    case Freeing => ReturnKeepsRows(s);
    case Halting => ThrowKeepsRows(s);
    case _ => DestroyKeepsRows(s);
  }

  /** The row invariant survives any step that leaves the queue, the counters and the rows pushed alone. */
  lemma RowsKept(cfg: Config, s: State, t: State, m: Meaning)
    requires RowInv(cfg, s, m)
    requires t.p.queue == s.p.queue && t.p.produced == s.p.produced && t.p.limitReached == s.p.limitReached
    requires t.done == s.done
    requires t.p.caught == s.p.caught || (s.p.caught.None? && t.p.caught.value.Request?)
    requires Pushed(t) == Pushed(s)
    requires (s.interrupted ==> t.interrupted) && (s.cancelled ==> t.cancelled)
    requires HasRowInHand(t.p.at) && cfg.cap > 0 ==> s.p.produced < cfg.cap
    ensures RowInv(cfg, t, m)
  {
  }

  /** The text invariant looks at the bytes, the lines and the rest only. */
  lemma TextKept(s: State, t: State)
    requires TextInv(s)
    requires t.stream == s.stream && t.done == s.done && t.p.rest == s.p.rest && t.p.lastLine == s.p.lastLine
    requires s.p.ended ==> t.p.ended
    ensures TextInv(t)
  {
  }

  /** Data invariants look at the producer, the bytes, the lines and the rows pushed only. */
  lemma SameData(cfg: Config, s: State, t: State)
    requires DataInv(cfg, s)
    requires t.p == s.p.(notified := t.p.notified) && t.stream == s.stream && t.done == s.done
    requires Pushed(t) == Pushed(s)
    requires (s.interrupted ==> t.interrupted) && (s.cancelled ==> t.cancelled)
    ensures DataInv(cfg, t)
  {
    TextKept(s, t);
    RowsKept(cfg, s, t, MeaningOf(cfg.parser, s.done));
  }

  /** Moving the cut past one complete line. */
  lemma TextOfLine(done: seq<string>, rest: string)
    requires NoNewlines(done) && CutLine(rest).Cut?
    ensures NoNewlines(done + [CutLine(rest).line])
    ensures Unlines(done) + rest == Unlines(done + [CutLine(rest).line]) + CutLine(rest).more
  {
    var at := FirstNewline(rest);
    UnlinesSnoc(done, rest[..at]);
    assert rest == rest[..at] + "\n" + rest[at + 1..];
    assert Unlines(done) + (rest[..at] + "\n" + rest[at + 1..]) == Unlines(done) + rest[..at] + "\n" + rest[at + 1..];
  }

  /** Parsing a line appends its rows to the meaning and puts them in the queue. */
  lemma ParseLineRows(cfg: Config, s: State, line: string, more: string, last: bool)
    requires RowInv(cfg, s, MeaningOf(cfg.parser, s.done))
    requires !s.p.limitReached && s.p.caught.None? && s.p.queue == []
    ensures var t := ParseLine(s, line, cfg.parser(line), more, last);
            t.done == s.done + [line] && RowInv(cfg, t, MeaningOf(cfg.parser, t.done))
  {
    MeaningSnoc(cfg.parser, s.done, line);
    ParseLineExtends(cfg, s, line, more, last, MeaningOf(cfg.parser, s.done), MeaningOf(cfg.parser, s.done + [line]));
  }

  lemma ParseLineExtends(cfg: Config, s: State, line: string, more: string, last: bool, m: Meaning, n: Meaning)
    requires RowInv(cfg, s, m) && !s.p.limitReached && s.p.caught.None? && s.p.queue == []
    requires n == Then(m, match cfg.parser(line) case Fails(e) => Meaning([], Some(e)) case Yields(rows) => Meaning(rows, None))
    ensures RowInv(cfg, ParseLine(s, line, cfg.parser(line), more, last), n)
  {
    var t := ParseLine(s, line, cfg.parser(line), more, last);
    assert Pushed(t) == Pushed(s);
    assert m.rows + [] == m.rows;
    match cfg.parser(line)
    case Fails(e) =>
    case Yields(rows) =>
      assert n.rows[|n.rows| - |rows|..] == rows;
      assert n.rows[..s.p.produced] == m.rows[..s.p.produced];
  }

  lemma SplitData(cfg: Config, s: State)
    requires DataInv(cfg, s) && PhaseInv(s) && s.p.at == Splitting
    ensures DataInv(cfg, Split(cfg, s))
  {
    if !s.p.limitReached && CutLine(s.p.rest).Cut? {
      var cut := CutLine(s.p.rest);
      SplitLineData(cfg, s, cut.line, cut.more);
    } else {
      SplitQuietData(cfg, s);
    }
  }

  lemma SplitLineData(cfg: Config, s: State, line: string, more: string)
    requires DataInv(cfg, s) && PhaseInv(s)
    requires s.p.at == Splitting && !s.p.limitReached && CutLine(s.p.rest) == Cut(line, more)
    ensures DataInv(cfg, ParseLine(s, line, cfg.parser(line), more, false))
  {
    TextOfLine(s.done, s.p.rest);
    SplitLineText(s, line, more, cfg.parser(line));
    ParseLineRows(cfg, s, line, more, false);
  }

  lemma SplitLineText(s: State, line: string, more: string, outcome: LineOutcome)
    requires TextInv(s) && RestInv(s) && s.p.at == Splitting && s.p.caught.None?
    requires NoNewlines(s.done + [line]) && s.stream == Unlines(s.done + [line]) + more
    ensures var t := ParseLine(s, line, outcome, more, false); TextInv(t) && RestInv(t)
  {
  }

  lemma SplitQuietData(cfg: Config, s: State)
    requires DataInv(cfg, s) && PhaseInv(s) && s.p.at == Splitting && (s.p.limitReached || CutLine(s.p.rest) == NoLine)
    ensures DataInv(cfg, Split(cfg, s))
  {
    var rest := s.p.rest;
    assert rest[..|rest|] == rest;
    QuietProducer(cfg, s, s.(p := s.p.(at := if s.p.limitReached then Flushing else Receiving)));
  }

  lemma FlushData(cfg: Config, s: State)
    requires DataInv(cfg, s) && PhaseInv(s) && s.p.at == Flushing
    ensures DataInv(cfg, Flush(cfg, s))
  {
    if !s.p.limitReached && s.p.rest != "" {
      FlushLineText(s, cfg.parser(s.p.rest));
      ParseLineRows(cfg, s, s.p.rest, "", true);
    } else {
      QuietProducer(cfg, s, s.(p := s.p.(at := Finishing)));
    }
  }

  lemma FlushLineText(s: State, outcome: LineOutcome)
    requires TextInv(s) && RestInv(s) && s.p.at == Flushing && !s.p.limitReached && s.p.rest != "" && s.p.caught.None?
    ensures var t := ParseLine(s, s.p.rest, outcome, "", true); TextInv(t) && RestInv(t)
  {
    assert (s.done + [s.p.rest])[..|s.done|] == s.done;
  }

  /** A producer step that only moves its program counter and shared flags. */
  lemma QuietProducer(cfg: Config, s: State, t: State)
    requires DataInv(cfg, s) && RestInv(t)
    requires t.p == s.p.(at := t.p.at, notified := t.p.notified)
    requires t.c.output == s.c.output && t.c.scans == s.c.scans && t.buffer == s.buffer
    requires t.stream == s.stream && t.done == s.done
    requires (s.interrupted ==> t.interrupted) && (s.cancelled ==> t.cancelled)
    requires HasRowInHand(t.p.at) && cfg.cap > 0 ==> s.p.produced < cfg.cap
    ensures DataInv(cfg, t)
  {
    assert Pushed(t) == Pushed(s);
    TextKept(s, t);
    RowsKept(cfg, s, t, MeaningOf(cfg.parser, s.done));
  }

  lemma EmitData(cfg: Config, s: State)
    requires DataInv(cfg, s) && PhaseInv(s) && s.p.at == Emitting
    ensures DataInv(cfg, Emit(cfg, s))
  {
    if s.p.queue == [] || (!s.p.limitReached && !(cfg.cap > 0 && s.p.produced >= cfg.cap)) {
      EmitMoves(cfg, s);
    } else {
      PopQueue(cfg, s, Emit(cfg, s), MeaningOf(cfg.parser, s.done));
    }
  }

  lemma EmitMoves(cfg: Config, s: State)
    requires DataInv(cfg, s) && PhaseInv(s) && s.p.at == Emitting
    requires s.p.queue == [] || (!s.p.limitReached && !(cfg.cap > 0 && s.p.produced >= cfg.cap))
    ensures DataInv(cfg, Emit(cfg, s))
  {
    EmitRest(cfg, s);
    QuietProducer(cfg, s, Emit(cfg, s));
  }

  lemma EmitRest(cfg: Config, s: State)
    requires RestInv(s) && PhaseInv(s) && s.p.at == Emitting
    requires s.p.lastLine ==> s.p.ended && s.p.rest == ""
    requires s.p.queue == [] || (!s.p.limitReached && !(cfg.cap > 0 && s.p.produced >= cfg.cap))
    ensures var t := Emit(cfg, s);
            && RestInv(t) && t == s.(p := s.p.(at := t.p.at))
            && (HasRowInHand(t.p.at) && cfg.cap > 0 ==> s.p.produced < cfg.cap)
  {
  }

  /** Skipping a row because the limit is, or has just been, reached. */
  lemma PopQueue(cfg: Config, s: State, t: State, m: Meaning)
    requires RowInv(cfg, s, m) && s.p.queue != []
    requires t.p == s.p.(at := Emitting, limitReached := true, queue := s.p.queue[1..])
    requires t.c == s.c && t.buffer == s.buffer && t.done == s.done
    requires t.interrupted == s.interrupted && t.cancelled == s.cancelled
    requires s.p.limitReached || s.interrupted || s.cancelled || (cfg.cap > 0 && s.p.produced >= cfg.cap)
    ensures RowInv(cfg, t, m)
  {
    assert Pushed(t) == Pushed(s);
    var n := |m.rows| - |s.p.queue|;
    assert m.rows[n..][1..] == m.rows[n + 1..];
  }

  lemma PushRow(cfg: Config, s: State, m: Meaning)
    requires RowInv(cfg, s, m) && s.p.at == Deciding && s.p.queue != [] && !s.p.limitReached
    requires !s.cancelled && !s.interrupted
    ensures RowInv(cfg, Push(s), m)
  {
    var t := Push(s);
    var n := |m.rows| - |s.p.queue|;
    assert m.rows[n..][1..] == m.rows[n + 1..];
    assert s.p.queue[0] == m.rows[n];
    assert m.rows[..n + 1] == m.rows[..n] + [m.rows[n]];
    assert Pushed(t) == Pushed(s) + [s.p.queue[0]] by {
      assert s.c.output + (s.buffer + [s.p.queue[0]]) == (s.c.output + s.buffer) + [s.p.queue[0]];
    }
  }

  lemma PushData(cfg: Config, s: State)
    requires DataInv(cfg, s) && PhaseInv(s) && s.p.at == Deciding
    ensures DataInv(cfg, Push(s))
  {
    if s.cancelled || s.interrupted {
      PopQueue(cfg, s, Push(s), MeaningOf(cfg.parser, s.done));
    } else {
      PushRow(cfg, s, MeaningOf(cfg.parser, s.done));
    }
  }

  lemma ChunkText(s: State, data: string)
    requires TextInv(s) && RestInv(s) && PhaseInv(s) && s.p.at == Receiving
    ensures var t := Outside(s, Chunk(data)); TextInv(t) && RestInv(t) && Pushed(t) == Pushed(s)
  {
    assert Unlines(s.done) + s.p.rest + data == Unlines(s.done) + (s.p.rest + data);
  }

  lemma ChunkData(cfg: Config, s: State, data: string)
    requires DataInv(cfg, s) && PhaseInv(s) && s.p.at == Receiving
    ensures DataInv(cfg, Outside(s, Chunk(data)))
  {
    ChunkText(s, data);
    RowsKept(cfg, s, Outside(s, Chunk(data)), MeaningOf(cfg.parser, s.done));
  }

  lemma RequestText(s: State, a: Action)
    requires TextInv(s) && RestInv(s) && PhaseInv(s) && s.p.at == Receiving && (a.RequestEnds? || a.RequestFails?)
    ensures var t := Outside(s, a); TextInv(t) && RestInv(t) && Pushed(t) == Pushed(s)
  {
  }

  lemma RequestData(cfg: Config, s: State, a: Action)
    requires DataInv(cfg, s) && PhaseInv(s) && s.p.at == Receiving && (a.RequestEnds? || a.RequestFails?)
    ensures DataInv(cfg, Outside(s, a))
  {
    RequestText(s, a);
    RowsKept(cfg, s, Outside(s, a), MeaningOf(cfg.parser, s.done));
  }

  lemma WakeData(cfg: Config, s: State)
    requires DataInv(cfg, s) && PhaseInv(s) && s.p.at == Sleeping
    ensures DataInv(cfg, s.(p := s.p.(at := Locking)))
  {
    QuietProducer(cfg, s, s.(p := s.p.(at := Locking)));
  }

  lemma StartData(cfg: Config, s: State)
    requires DataInv(cfg, s) && PhaseInv(s) && s.p.at == Unstarted
    ensures DataInv(cfg, Outside(s, StartScan))
  {
    QuietProducer(cfg, s, Outside(s, StartScan));
  }

  /** The executor, the scheduler and the interrupt touch neither the producer's data nor the rows. */
  lemma OutsideKeepsProducer(s: State, a: Action)
    requires a == Interrupt || a == StartDestroy || a.ScannerWakes? || (a == StartScan && s.p.at != Unstarted)
    ensures var t := Outside(s, a);
            && t.p == s.p && t.stream == s.stream && t.done == s.done && Pushed(t) == Pushed(s)
            && (s.interrupted ==> t.interrupted) && t.cancelled == s.cancelled
  {
  }

  lemma QuietOutsideData(cfg: Config, s: State, a: Action)
    requires DataInv(cfg, s)
    requires a == Interrupt || a == StartDestroy || a.ScannerWakes? || (a == StartScan && s.p.at != Unstarted)
    ensures DataInv(cfg, Outside(s, a))
  {
    OutsideKeepsProducer(s, a);
    SameData(cfg, s, Outside(s, a));
  }

  lemma StartScanData(cfg: Config, s: State)
    requires DataInv(cfg, s) && PhaseInv(s)
    ensures DataInv(cfg, Outside(s, StartScan))
  {
    if s.p.at == Unstarted { StartData(cfg, s); } else { QuietOutsideData(cfg, s, StartScan); }
  }

  lemma OutsideData(cfg: Config, s: State, a: Action)
    requires DataInv(cfg, s) && PhaseInv(s) && Enabled(s, a) && a != ProducerStep && a != ScannerStep
    ensures DataInv(cfg, Outside(s, a))
  {
    match a
    case Chunk(data) => ChunkData(cfg, s, data);
    case RequestEnds => RequestData(cfg, s, a);
    case RequestFails(_) => RequestData(cfg, s, a);
    case ProducerWakes(_) => WakeData(cfg, s);
    case StartScan => StartScanData(cfg, s);
    case _ => QuietOutsideData(cfg, s, a);
  }

  lemma WaitData(cfg: Config, s: State)
    requires DataInv(cfg, s) && PhaseInv(s) && (s.p.at == Locking || s.p.at == Blocking)
    ensures DataInv(cfg, Wait(cfg, s))
  {
    QuietProducer(cfg, s, Wait(cfg, s));
  }

  lemma NotifyData(cfg: Config, s: State)
    requires DataInv(cfg, s) && PhaseInv(s) && s.p.at == Notifying
    ensures DataInv(cfg, NotifyScanner(s.(p := s.p.(at := Emitting))))
  {
    QuietProducer(cfg, s, NotifyScanner(s.(p := s.p.(at := Emitting))));
  }

  lemma FinishRest(s: State)
    requires RestInv(s) && PhaseInv(s) && (s.p.at == Catching || s.p.at == Finishing || s.p.at == Announcing)
    ensures var t := Finish(s);
            && RestInv(t) && t.p == s.p.(at := t.p.at) && AtTheEnd(t.p.at)
            && t.c == s.c.(notified := t.c.notified) && t.buffer == s.buffer && t.stream == s.stream && t.done == s.done
            && t.interrupted == s.interrupted && t.cancelled == s.cancelled
  {
  }

  lemma FinishData(cfg: Config, s: State)
    requires DataInv(cfg, s) && PhaseInv(s) && (s.p.at == Catching || s.p.at == Finishing || s.p.at == Announcing)
    ensures DataInv(cfg, Finish(s))
  {
    FinishRest(s);
    QuietProducer(cfg, s, Finish(s));
  }

  //------------------------------------------------------------------ every step keeps everything

  lemma ProducerKeepsControl(cfg: Config, s: State)
    requires ControlInv(cfg, s) && ProducerEnabled(s)
    ensures ControlInv(cfg, ProducerNext(cfg, s))
  {
    match s.p.at
    case Splitting => SplitControl(cfg, s);
    case Flushing => FlushControl(cfg, s);
    case Emitting => EmitControl(cfg, s);
    case Locking => WaitControl(cfg, s);
    case Blocking => WaitControl(cfg, s);
    case Deciding => PushControl(cfg, s);
    case Notifying => NotifyControl(cfg, s);
    case _ => FinishControl(cfg, s);
  }

  lemma ProducerKeepsData(cfg: Config, s: State)
    requires Inv(cfg, s) && ProducerEnabled(s)
    ensures DataInv(cfg, ProducerNext(cfg, s))
  {
    match s.p.at
    case Splitting => SplitData(cfg, s);
    case Flushing => FlushData(cfg, s);
    case Emitting => EmitData(cfg, s);
    case Locking => WaitData(cfg, s);
    case Blocking => WaitData(cfg, s);
    case Deciding => PushData(cfg, s);
    case Notifying => NotifyData(cfg, s);
    case _ => FinishData(cfg, s);
  }

  lemma ScannerKeepsControl(cfg: Config, s: State)
    requires ControlInv(cfg, s) && ScannerEnabled(s)
    ensures ControlInv(cfg, ScannerNext(cfg, s))
  {
    match s.c.at
    case Entering => EnterControl(cfg, s);
    case Polling => PollControl(cfg, s);
    case Draining => DrainControl(cfg, s);
    case Freeing => LeaveControl(cfg, s);
    case Halting => LeaveControl(cfg, s);
    case _ => DestroyControl(cfg, s);
  }

  lemma InvStep(cfg: Config, s: State, a: Action)
    requires Inv(cfg, s) && Enabled(s, a)
    ensures Inv(cfg, Next(cfg, s, a))
  {
    match a
    case ProducerStep =>
      ProducerKeepsControl(cfg, s);
      ProducerKeepsData(cfg, s);
    case ScannerStep =>
      ScannerKeepsControl(cfg, s);
      ScannerKeepsRows(cfg, s);
      SameData(cfg, s, ScannerNext(cfg, s));
    case _ =>
      OutsideControl(cfg, s, a);
      OutsideData(cfg, s, a);
  }

  lemma {:induction false} InvRun(cfg: Config, s: State, run: seq<Action>, t: State)
    requires Inv(cfg, s)
    ensures Leads(cfg, s, run, t) ==> Inv(cfg, t)
    decreases |run|
  {
    if run != [] && Enabled(s, run[0]) {
      InvStep(cfg, s, run[0]);
      InvRun(cfg, Next(cfg, s, run[0]), run[1..], t);
    }
  }

  /** Every interleaving, every network behaviour and every moment of interruption keeps the invariant. */
  lemma InvReachable(cfg: Config, s: State)
    requires Reachable(cfg, s)
    ensures Inv(cfg, s)
  {
    var run :| Leads(cfg, Initial(), run, s);
    InitialInv(cfg);
    InvRun(cfg, Initial(), run, s);
  }

  //------------------------------------------------------------------ longer runs

  lemma {:induction false} LeadsFurther(cfg: Config, s: State, run: seq<Action>, t: State, a: Action)
    requires Leads(cfg, s, run, t) && Enabled(t, a)
    ensures Leads(cfg, s, run + [a], Next(cfg, t, a))
    decreases |run|
  {
    if run == [] {
      assert [a][1..] == [] && run + [a] == [a];
    } else {
      LeadsFurther(cfg, Next(cfg, s, run[0]), run[1..], t, a);
      assert (run + [a])[1..] == run[1..] + [a];
    }
  }

  lemma ReachableStep(cfg: Config, s: State, a: Action)
    requires Reachable(cfg, s) && Enabled(s, a)
    ensures Reachable(cfg, Next(cfg, s, a))
  {
    var run :| Leads(cfg, Initial(), run, s);
    LeadsFurther(cfg, Initial(), run, s, a);
  }
}
