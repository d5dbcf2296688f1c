/** Every native scan ends, whatever the scheduler prefers, and with the result it should have. */
module ScanTermination {
  import opened Common
  import opened ExportRecords
  import opened Lines
  import opened Reference
  import opened ScanInvariant
  import opened ScanMachine
  import opened ScanTheorems

  //------------------------------------------------------------------ the measure

  /**
   * How far the producer is from its next row or its exit. A thread asleep is far only when it has been
   * told to wake, or will not be allowed to sleep again.
   */
  function Effort(p: ProducerState, cancelled: bool): nat {
    match p.at
    case Exited => 0
    case Announcing => 1
    case Finishing => 2
    case Catching => 3
    case Flushing => 4
    case Receiving => 5
    case Splitting => 6
    case Deciding => 7
    case Sleeping => if p.notified || cancelled then 11 else 8
    case Blocking => 9
    case Locking => 10
    case Emitting => 12
    case Notifying => 13
    case Unstarted => 14
  }

  /** The producer got further: fewer bytes left, else a shorter queue, else nearer to the end. */
  predicate Closer(s: State, t: State) {
    || |t.p.rest| < |s.p.rest|
    || (|t.p.rest| == |s.p.rest| && |t.p.queue| < |s.p.queue|)
    || (|t.p.rest| == |s.p.rest| && |t.p.queue| == |s.p.queue|
        && Effort(t.p, t.cancelled) < Effort(s.p, s.cancelled))
  }

  /** The rows decoded and not yet returned. */
  function Held(s: State): nat {
    |s.buffer| + |s.c.output|
  }

  /** The stages of a call, and of the destructor. */
  function Stage(at: ScannerAt): nat {
    match at
    case Idle => 4
    case Entering => 3
    case Polling => 3
    case Dozing => 3
    case Draining => 2
    case Freeing => 1
    case Halting => 1
    case Cancelling => 3
    case Waiving => 2
    case Joining => 1
    case Destroyed => 0
  }

  /** The steps left inside a stage if the producer does nothing. */
  function Steps(s: State): nat {
    match s.c.at
    case Dozing => if s.c.notified then 4 else 1
    case Entering => 3
    case Polling => 2
    case Draining => |s.buffer|
    case _ => 0
  }

  //------------------------------------------------------------------ the producer

  predicate ProducerActs(a: Action) {
    a.ProducerStep? || a.ProducerWakes? || a.RequestEnds? || a.RequestFails?
  }

  /** What a producer step leaves alone. */
  predicate OnlyProducer(s: State, t: State) {
    t.c.at == s.c.at && t.c.output == s.c.output && t.c.scans == s.c.scans && t.stream == s.stream
    && t.cancelled == s.cancelled && t.interrupted == s.interrupted
  }

  predicate Moved(s: State, t: State) {
    Closer(s, t) && OnlyProducer(s, t) && (s.cancelled ==> t.p.at != Sleeping)
    && (Held(t) == Held(s) || |t.p.rest| < |s.p.rest| || |t.p.queue| < |s.p.queue|)
  }

  lemma ParseMoves(s: State, line: string, outcome: LineOutcome, more: string, last: bool)
    requires |more| < |s.p.rest|
    ensures Moved(s, ParseLine(s, line, outcome, more, last))
  {
  }

  lemma SplitMoves(cfg: Config, s: State)
    requires s.p.at == Splitting
    ensures Moved(s, Split(cfg, s))
  {
    if s.p.limitReached {
      TurnMoves(s, Flushing);
    } else {
      match CutLine(s.p.rest)
      case NoLine => TurnMoves(s, Receiving);
      case Cut(line, more) => ParseMoves(s, line, cfg.parser(line), more, false);
    }
  }

  lemma TurnMoves(s: State, at: ProducerAt)
    requires s.p.at == Splitting && (at == Flushing || at == Receiving)
    ensures Moved(s, s.(p := s.p.(at := at)))
  {
  }

  lemma FlushMoves(cfg: Config, s: State)
    requires s.p.at == Flushing
    ensures Moved(s, Flush(cfg, s))
  {
    if !s.p.limitReached && s.p.rest != "" {
      ParseMoves(s, s.p.rest, cfg.parser(s.p.rest), "", true);
    }
  }

  lemma AtMoves(s: State, at: ProducerAt)
    requires s.p.at == Emitting && (at == Splitting || at == Finishing || at == Locking)
    ensures Moved(s, s.(p := s.p.(at := at)))
  {
  }

  lemma SkipMoves(s: State)
    requires s.p.at == Emitting && s.p.queue != []
    ensures Moved(s, s.(p := s.p.(limitReached := true, queue := s.p.queue[1..])))
  {
  }

  lemma EmitMoves(cfg: Config, s: State)
    requires s.p.at == Emitting
    ensures Moved(s, Emit(cfg, s))
  {
    if s.p.queue == [] {
      AtMoves(s, if s.p.lastLine then Finishing else Splitting);
    } else if s.p.limitReached || (cfg.cap > 0 && s.p.produced >= cfg.cap) {
      SkipMoves(s);
    } else {
      AtMoves(s, Locking);
    }
  }

  lemma PushMoves(s: State)
    requires s.p.at == Deciding && s.p.queue != []
    ensures Moved(s, Push(s))
  {
  }

  lemma WaitMoves(cfg: Config, s: State)
    requires s.p.at == Locking || (s.p.at == Blocking && !s.cancelled)
    ensures Moved(s, Wait(cfg, s))
  {
  }

  lemma NotifyMoves(s: State)
    requires s.p.at == Notifying
    ensures Moved(s, NotifyScanner(s.(p := s.p.(at := Emitting))))
  {
  }

  lemma FinishMoves(s: State)
    requires s.p.at == Catching || s.p.at == Finishing || s.p.at == Announcing
    ensures Moved(s, Finish(s))
  {
  }

  lemma ProducerMoves(cfg: Config, s: State)
    requires BufferInv(cfg, s) && ProducerEnabled(s)
    ensures Moved(s, ProducerNext(cfg, s))
  {
    match s.p.at {
      case Splitting => SplitMoves(cfg, s);
      case Flushing => FlushMoves(cfg, s);
      case Emitting => EmitMoves(cfg, s);
      case Locking => WaitMoves(cfg, s);
      case Blocking => WaitMoves(cfg, s);
      case Deciding => PushMoves(s);
      case Notifying => NotifyMoves(s);
      case _ => FinishMoves(s);
    }
  }

  /**
   * Once cancelled, everything the producer does brings it closer to its exit, even after a spurious
   * wakeup, and it never goes back to sleep.
   */
  lemma CancelledProducerExits(cfg: Config, s: State, a: Action)
    requires Reachable(cfg, s) && s.cancelled && Enabled(s, a) && ProducerActs(a)
    ensures Closer(s, Next(cfg, s, a)) && Next(cfg, s, a).cancelled && Next(cfg, s, a).p.at != Sleeping
  {
    InvReachable(cfg, s);
    CancelledActs(cfg, s, a);
  }

  lemma CancelledActs(cfg: Config, s: State, a: Action)
    requires BufferInv(cfg, s) && s.cancelled && Enabled(s, a) && ProducerActs(a)
    ensures Closer(s, Next(cfg, s, a)) && Next(cfg, s, a).cancelled && Next(cfg, s, a).p.at != Sleeping
  {
    if a.ProducerStep? { ProducerMoves(cfg, s); } else { CancelledWakes(s, a); }
  }

  lemma CancelledWakes(s: State, a: Action)
    requires s.cancelled && Enabled(s, a) && ProducerActs(a) && !a.ProducerStep?
    ensures Closer(s, Outside(s, a)) && Outside(s, a).cancelled && Outside(s, a).p.at != Sleeping
  {
  }

  //------------------------------------------------------------------ the whole system

  /**
   * The acts that are not up to anybody's whim: program steps, announced wakeups, further calls, and
   * the end of the request. Left out are interrupts, new bytes, and spurious or timed wakeups.
   */
  predicate Internal(a: Action) {
    match a
    case ProducerWakes(spurious) => !spurious
    case ScannerWakes(timed) => !timed
    case Interrupt => false
    case Chunk(_) => false
    case StartDestroy => false
    case _ => true
  }

  /** The last call has returned an empty chunk, or raised; or the destructor is through. */
  predicate Over(s: State) {
    || s.c.at == Destroyed
    || (s.c.at == Idle && s.c.scans != [] && EndsScan(s.c.scans[|s.c.scans| - 1]))
  }

  predicate EndsScan(scan: Scan) {
    match scan case Delivered(rows) => rows == [] case _ => true
  }

  /** The lexicographic order of the measure. */
  predicate Smaller(s: State, t: State) {
    || |t.p.rest| < |s.p.rest|
    || (|t.p.rest| == |s.p.rest| &&
        (|| |t.p.queue| < |s.p.queue|
         || (|t.p.queue| == |s.p.queue| &&
             (|| Held(t) < Held(s)
              || (Held(t) == Held(s) &&
                  (|| Stage(t.c.at) < Stage(s.c.at)
                   || (Stage(t.c.at) == Stage(s.c.at) &&
                       (|| Effort(t.p, t.cancelled) < Effort(s.p, s.cancelled)
                        || (Effort(t.p, t.cancelled) == Effort(s.p, s.cancelled) && Steps(t) < Steps(s))))))))))
  }

  lemma EnterShrinks(s: State)
    requires s.c.at == Entering
    ensures Over(Enter(s)) || Smaller(s, Enter(s))
  {
  }

  lemma PollShrinks(s: State)
    requires s.c.at == Polling
    ensures Smaller(s, Poll(s))
  {
  }

  lemma DrainShrinks(cfg: Config, s: State)
    requires s.c.at == Draining
    ensures Smaller(s, Drain(cfg, s))
  {
  }

  /** A call that returns rows leaves fewer to return. */
  lemma LeaveShrinks(s: State)
    requires s.c.at == Freeing || s.c.at == Halting
    ensures Over(Leave(s)) || Smaller(s, Leave(s))
  {
  }

  lemma DestroyShrinks(s: State)
    requires s.c.at == Cancelling || s.c.at == Waiving || s.c.at == Joining
    ensures Smaller(s, Destroy(s))
  {
  }

  lemma ScannerShrinks(cfg: Config, s: State)
    requires ScannerEnabled(s)
    ensures Over(ScannerNext(cfg, s)) || Smaller(s, ScannerNext(cfg, s))
  {
    match s.c.at
    case Entering => EnterShrinks(s);
    case Polling => PollShrinks(s);
    case Draining => DrainShrinks(cfg, s);
    case Freeing => LeaveShrinks(s);
    case Halting => LeaveShrinks(s);
    case _ => DestroyShrinks(s);
  }

  lemma InternalShrinks(cfg: Config, s: State, a: Action)
    requires BufferInv(cfg, s) && PhaseInv(s) && Enabled(s, a) && Internal(a)
    ensures Over(Next(cfg, s, a)) || Smaller(s, Next(cfg, s, a))
  {
    match a
    case ProducerStep => ProducerMoves(cfg, s);
    case ScannerStep => ScannerShrinks(cfg, s);
    case _ =>
  }

  /** A scheduler's preference at step `k`; any function will do. */
  type Scheduler = (nat, State) -> Action

  /** The preferred act if it is an internal one that can happen, else some other one that can. */
  function Choose(sched: Scheduler, k: nat, s: State): Action {
    var a := sched(k, s);
    if Internal(a) && Enabled(s, a) then a
    else if ProducerEnabled(s) then ProducerStep
    else if ScannerEnabled(s) then ScannerStep
    else if s.p.at == Sleeping && s.p.notified then ProducerWakes(false)
    else if s.c.at == Dozing && s.c.notified then ScannerWakes(false)
    else if s.p.at == Receiving then RequestEnds
    else StartScan
  }

  /** The state after `n` internal acts, chosen from step `k` on; a scan that is over stays so. */
  function Drive(cfg: Config, s: State, sched: Scheduler, k: nat, n: nat): State
    decreases n
  {
    var a := Choose(sched, k, s);
    if n == 0 || Over(s) || !Enabled(s, a) then s
    else Drive(cfg, Next(cfg, s, a), sched, k + 1, n - 1)
  }

  lemma SomethingToDo(cfg: Config, s: State, sched: Scheduler, k: nat)
    requires Reachable(cfg, s) && !Over(s)
    ensures var a := Choose(sched, k, s); Internal(a) && Enabled(s, a)
  {
    if s.c.at != Idle && s.p.at != Receiving { NeverStuck(cfg, s); }
  }

  /**
   * If no more bytes arrive, every scan ends after finitely many acts, whatever the scheduler prefers and
   * without help from timeouts: the executor that keeps calling gets an empty chunk or an exception, and
   * a destructor completes.
   */
  lemma {:induction false} ScanEnds(cfg: Config, s: State, sched: Scheduler, k: nat)
    requires Reachable(cfg, s)
    ensures exists n: nat :: Over(Drive(cfg, s, sched, k, n))
    decreases |s.p.rest|, |s.p.queue|, Held(s), Stage(s.c.at), Effort(s.p, s.cancelled), Steps(s)
  {
    if Over(s) {
      assert Over(Drive(cfg, s, sched, k, 0));
    } else {
      SomethingToDo(cfg, s, sched, k);
      var a := Choose(sched, k, s);
      var t := Next(cfg, s, a);
      InvReachable(cfg, s);
      ReachableStep(cfg, s, a);
      InternalShrinks(cfg, s, a);
      if Over(t) {
        assert Over(Drive(cfg, t, sched, k + 1, 0));
        assert Over(Drive(cfg, s, sched, k, 1));
      } else {
        ScanEnds(cfg, t, sched, k + 1);
        var n: nat :| Over(Drive(cfg, t, sched, k + 1, n));
        assert Over(Drive(cfg, s, sched, k, n + 1));
      }
    }
  }

  //------------------------------------------------------------------ total correctness

  /** Nobody has interrupted, cancelled, or begun to destroy the scan. */
  predicate Undisturbed(s: State) {
    !s.interrupted && !s.cancelled && !InDestructor(s.c.at) && s.c.at != Halting && Interrupted !in s.c.scans
  }

  lemma ScannerStays(cfg: Config, s: State)
    requires Undisturbed(s) && ScannerEnabled(s)
    ensures var t := ScannerNext(cfg, s);
            !t.cancelled && !InDestructor(t.c.at) && t.c.at != Halting && Interrupted !in t.c.scans
  {
  }

  lemma StaysUndisturbed(cfg: Config, s: State, a: Action)
    requires BufferInv(cfg, s) && Undisturbed(s) && Enabled(s, a) && Internal(a)
    ensures Undisturbed(Next(cfg, s, a)) && Next(cfg, s, a).stream == s.stream
  {
    match a
    case ProducerStep => ProducerMoves(cfg, s);
    case ScannerStep =>
      ScannerKeepsRows(cfg, s);
      ScannerStays(cfg, s);
    case _ =>
  }

  lemma {:induction false} DriveKeeps(cfg: Config, s: State, sched: Scheduler, k: nat, n: nat)
    requires Reachable(cfg, s) && Undisturbed(s)
    ensures var t := Drive(cfg, s, sched, k, n); Reachable(cfg, t) && Undisturbed(t) && t.stream == s.stream
    decreases n
  {
    var a := Choose(sched, k, s);
    if n > 0 && !Over(s) && Enabled(s, a) {
      SomethingToDo(cfg, s, sched, k);
      InvReachable(cfg, s);
      ReachableStep(cfg, s, a);
      StaysUndisturbed(cfg, s, a);
      DriveKeeps(cfg, Next(cfg, s, a), sched, k + 1, n - 1);
    }
  }

  /** How a scan over the bytes `body` must have ended: with everything, or with the first error. */
  predicate EndsRight(cfg: Config, t: State, body: string)
    requires t.c.scans != []
  {
    match t.c.scans[|t.c.scans| - 1]
    case Delivered(rows) =>
      rows == [] && Meaning(Emitted(t.c.scans), None) == NativeMeaning(cfg.cap, BodyMeaning(cfg.parser, body))
    case Raised(Search(e)) =>
      Meaning(Pushed(t), Some(e)) == NativeMeaning(cfg.cap, BodyMeaning(cfg.parser, body))
    case Raised(Request(_)) =>
      Pushed(t) == MeaningOf(cfg.parser, Complete(body)).rows
    case Interrupted => false
  }

  lemma OverIsRight(cfg: Config, t: State)
    requires Reachable(cfg, t) && Undisturbed(t) && Over(t)
    ensures EndsRight(cfg, t, t.stream)
  {
    InvReachable(cfg, t);
    var last := t.c.scans[|t.c.scans| - 1];
    assert last in t.c.scans;
    match last
    case Delivered(_) => EndIsComplete(cfg, t, t.stream);
    case Raised(Search(e)) => RaisedSearchErrorIsFirst(cfg, t, t.stream, e);
    case Raised(Request(cause)) => RequestFailureKeepsTail(cfg, t, cause);
    case Interrupted =>
  }

  /**
   * Total correctness: from any undisturbed point of a scan, once the network sends no more bytes, every
   * scheduler brings the scan to its end, and that end is right for exactly the bytes received.
   */
  lemma EveryScanEndsRight(cfg: Config, s: State, sched: Scheduler, k: nat)
    requires Reachable(cfg, s) && Undisturbed(s)
    ensures exists n: nat :: var t := Drive(cfg, s, sched, k, n);
                             t.c.scans != [] && t.stream == s.stream && Over(t) && EndsRight(cfg, t, s.stream)
  {
    ScanEnds(cfg, s, sched, k);
    var n: nat :| Over(Drive(cfg, s, sched, k, n));
    DriveKeeps(cfg, s, sched, k, n);
    OverIsRight(cfg, Drive(cfg, s, sched, k, n));
  }
}
