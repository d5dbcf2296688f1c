/** What an interrupt, and an error, do to the calls of a native scan. */
module ScanInterrupts {
  import opened Common
  import opened EventMapping
  import opened ExportRecords
  import opened Reference
  import opened ScanInvariant
  import opened ScanMachine
  import opened ScanTheorems

  //------------------------------------------------------------------ an interrupted call raises

  /** An interrupted scanning thread does not go to sleep again. */
  lemma InterruptedNeverDozes(cfg: Config, s: State)
    requires Reachable(cfg, s) && s.interrupted && ScannerEnabled(s)
    ensures Next(cfg, s, ScannerStep).c.at != Dozing
  {
  }

  /** A call waits, with nothing to return and nothing to raise. */
  predicate Waits(s: State) {
    && (s.c.at == Entering || s.c.at == Polling || s.c.at == Dozing)
    && s.buffer == [] && !s.finished && s.error.None?
  }

  /** The call has ended with an interrupt, and the scan is cancelled. */
  predicate ThrewInterrupt(s: State, t: State) {
    t.c.at == Idle && t.c.scans == s.c.scans + [Interrupted] && t.cancelled
  }

  /** At most four acts of the scanning thread: steps, after a timeout at the start if it is asleep. */
  predicate OwnActs(run: seq<Action>) {
    |run| <= 4 && forall i :: 0 <= i < |run| ==> run[i] == ScannerStep || (i == 0 && run[i] == ScannerWakes(true))
  }

  /** From `u` the scanning thread's own acts end the call of `s` so. */
  ghost predicate EndsFrom(cfg: Config, u: State, s: State) {
    exists run, t :: OwnActs(run) && Leads(cfg, u, run, t) && ThrewInterrupt(s, t)
  }

  lemma EndsSo(cfg: Config, s: State, run: seq<Action>, t: State)
    requires OwnActs(run) && Leads(cfg, s, run, t) && ThrewInterrupt(s, t)
    ensures EndsFrom(cfg, s, s)
  {
  }

  lemma OneStep(cfg: Config, s: State, a: Action, run: seq<Action>, t: State)
    requires Enabled(s, a) && Leads(cfg, Next(cfg, s, a), run, t)
    ensures Leads(cfg, s, [a] + run, t)
  {
    assert ([a] + run)[1..] == run;
  }

  /** From the poll on: two steps. */
  lemma PolledCallEnds(cfg: Config, s: State) returns (t: State)
    requires s.interrupted && s.c.at == Polling
    ensures Leads(cfg, s, [ScannerStep] + [ScannerStep], t) && ThrewInterrupt(s, t)
  {
    var u := Next(cfg, s, ScannerStep);
    t := Next(cfg, u, ScannerStep);
    assert Leads(cfg, t, [], t);
    OneStep(cfg, u, ScannerStep, [], t);
    assert [ScannerStep] + [] == [ScannerStep];
    OneStep(cfg, s, ScannerStep, [ScannerStep], t);
  }

  lemma EnteredCallEnds(cfg: Config, s: State) returns (t: State)
    requires s.interrupted && s.c.at == Entering && Waits(s) && s.mutex == Nobody
    ensures Leads(cfg, s, [ScannerStep] + ([ScannerStep] + [ScannerStep]), t) && ThrewInterrupt(s, t)
  {
    t := PolledCallEnds(cfg, Next(cfg, s, ScannerStep));
    OneStep(cfg, s, ScannerStep, [ScannerStep] + [ScannerStep], t);
  }

  lemma DozingCallEnds(cfg: Config, s: State) returns (t: State)
    requires s.interrupted && s.c.at == Dozing && Waits(s) && s.mutex == Nobody
    ensures Leads(cfg, s, [ScannerWakes(true)] + ([ScannerStep] + ([ScannerStep] + [ScannerStep])), t) && ThrewInterrupt(s, t)
  {
    t := EnteredCallEnds(cfg, Next(cfg, s, ScannerWakes(true)));
    OneStep(cfg, s, ScannerWakes(true), [ScannerStep] + ([ScannerStep] + [ScannerStep]), t);
  }

  lemma PolledEnds(cfg: Config, s: State)
    requires s.interrupted && s.c.at == Polling
    ensures EndsFrom(cfg, s, s)
  {
    var t := PolledCallEnds(cfg, s);
    EndsSo(cfg, s, [ScannerStep] + [ScannerStep], t);
  }

  lemma EnteredEnds(cfg: Config, s: State)
    requires s.interrupted && s.c.at == Entering && Waits(s) && s.mutex == Nobody
    ensures EndsFrom(cfg, s, s)
  {
    var t := EnteredCallEnds(cfg, s);
    EndsSo(cfg, s, [ScannerStep] + ([ScannerStep] + [ScannerStep]), t);
  }

  lemma DozingEnds(cfg: Config, s: State)
    requires s.interrupted && s.c.at == Dozing && Waits(s) && s.mutex == Nobody
    ensures EndsFrom(cfg, s, s)
  {
    var t := DozingCallEnds(cfg, s);
    EndsSo(cfg, s, [ScannerWakes(true)] + ([ScannerStep] + ([ScannerStep] + [ScannerStep])), t);
  }

  lemma FreeWhileWaiting(cfg: Config, s: State)
    requires Reachable(cfg, s) && Waits(s) && s.mutex != Producer
    ensures s.c.at != Polling ==> s.mutex == Nobody
  {
    InvReachable(cfg, s);
  }

  /**
   * An interrupted call that waits ends by throwing, with the scan cancelled: by the scanning thread's own
   * steps, after at most one timeout if it is asleep, while nobody holds the mutex against it.
   */
  lemma InterruptedCallEnds(cfg: Config, s: State)
    requires Reachable(cfg, s) && s.interrupted && Waits(s) && s.mutex != Producer
    ensures EndsFrom(cfg, s, s)
  {
    FreeWhileWaiting(cfg, s);
    match s.c.at
    case Polling => PolledEnds(cfg, s);
    case Entering => EnteredEnds(cfg, s);
    case _ => DozingEnds(cfg, s);
  }

  /** A producer that holds the mutex lets go of it with its next step, and an interrupted one adds no row. */
  lemma ProducerLetsGo(cfg: Config, s: State)
    requires Reachable(cfg, s) && s.mutex == Producer
    ensures ProducerEnabled(s)
    ensures var t := Next(cfg, s, ProducerStep); t.mutex == Nobody && t.c == s.c && t.finished == s.finished && t.error == s.error
    ensures s.interrupted ==> Next(cfg, s, ProducerStep).buffer == s.buffer
  {
    InvReachable(cfg, s);
  }

  /** Whatever the producer is doing: at most one more step of it, and the interrupted call can end. */
  lemma InterruptedCallAlwaysEnds(cfg: Config, s: State)
    requires Reachable(cfg, s) && s.interrupted && Waits(s)
    ensures EndsFrom(cfg, s, s) || (Enabled(s, ProducerStep) && EndsFrom(cfg, Next(cfg, s, ProducerStep), s))
  {
    if s.mutex == Producer {
      ProducerLetsGo(cfg, s);
      var u := Next(cfg, s, ProducerStep);
      ReachableStep(cfg, s, ProducerStep);
      StaysInterrupted(cfg, s);
      InterruptedCallEnds(cfg, u);
      var run, t :| OwnActs(run) && Leads(cfg, u, run, t) && ThrewInterrupt(u, t);
      assert ThrewInterrupt(s, t);
    } else {
      InterruptedCallEnds(cfg, s);
    }
  }

  lemma StaysInterrupted(cfg: Config, s: State)
    requires Reachable(cfg, s) && s.mutex == Producer
    ensures ProducerEnabled(s) && Next(cfg, s, ProducerStep).interrupted == s.interrupted
  {
    InvReachable(cfg, s);
  }

  //------------------------------------------------------------------ only an interrupt raises so

  predicate HaltInv(s: State) {
    && (s.c.at == Halting ==> s.interrupted && s.cancelled)
    && (Interrupted in s.c.scans ==> s.interrupted && s.cancelled)
  }

  lemma HaltScanner(cfg: Config, s: State)
    requires HaltInv(s) && ScannerEnabled(s)
    ensures HaltInv(ScannerNext(cfg, s))
  {
  }

  lemma HaltProducer(cfg: Config, s: State)
    requires HaltInv(s) && ProducerEnabled(s)
    ensures HaltInv(ProducerNext(cfg, s))
  {
  }

  lemma HaltOutside(s: State, a: Action)
    requires HaltInv(s)
    ensures HaltInv(Outside(s, a))
  {
  }

  lemma {:induction false} HaltRun(cfg: Config, s: State, run: seq<Action>, t: State)
    requires HaltInv(s) && Leads(cfg, s, run, t)
    ensures HaltInv(t)
    decreases |run|
  {
    if run == [] {
    } else {
      match run[0] {
        case ProducerStep => HaltProducer(cfg, s);
        case ScannerStep => HaltScanner(cfg, s);
        case _ => HaltOutside(s, run[0]);
      }
      HaltRun(cfg, Next(cfg, s, run[0]), run[1..], t);
    }
  }

  /** A call throws an interrupt only in an interrupted run, and it leaves the scan cancelled. */
  lemma ThrownOnlyIfInterrupted(cfg: Config, s: State)
    requires Reachable(cfg, s) && Interrupted in s.c.scans
    ensures s.interrupted && s.cancelled
  {
    var run :| Leads(cfg, Initial(), run, s);
    HaltRun(cfg, Initial(), run, s);
  }

  //------------------------------------------------------------------ the interrupted producer

  /** No row enters the buffer of an interrupted scan. */
  lemma InterruptedPushesNothing(cfg: Config, s: State, a: Action)
    requires Reachable(cfg, s) && s.interrupted && Enabled(s, a)
    ensures Pushed(Next(cfg, s, a)) == Pushed(s)
  {
    InvReachable(cfg, s);
    match a
    case ScannerStep => ScannerKeepsRows(cfg, s);
    case ProducerStep => InterruptedProducer(cfg, s);
    case _ => OutsideKeepsRows(s, a);
  }

  lemma InterruptedProducer(cfg: Config, s: State)
    requires PhaseInv(s) && s.interrupted && ProducerEnabled(s)
    ensures Pushed(ProducerNext(cfg, s)) == Pushed(s)
  {
    if s.p.at == Deciding { PushGrows(s); } else { OtherProducerSteps(cfg, s); }
  }

  /** It does not begin to wait for space either: at the lock it goes on, and gives its row up. */
  lemma InterruptedGivesUp(cfg: Config, s: State)
    requires Reachable(cfg, s) && (s.interrupted || s.cancelled) && s.p.at == Locking && s.mutex == Nobody
    ensures var t := Next(cfg, s, ProducerStep);
            && ProducerEnabled(t)
            && var u := Next(cfg, t, ProducerStep);
               u.p.limitReached && u.p.queue == s.p.queue[1..] && Pushed(u) == Pushed(s)
  {
    InvReachable(cfg, s);
    var t := Next(cfg, s, ProducerStep);
    OtherProducerSteps(cfg, s);
    PushGrows(t);
    assert Pushed(s) + [] == Pushed(s);
  }

  //------------------------------------------------------------------ what a call hands out

  /** Once the error is stored, a call raises it at once: rows still buffered are not handed out. */
  lemma StoredErrorIsRaised(cfg: Config, s: State)
    requires Reachable(cfg, s) && s.error.Some? && s.c.at == Entering && s.mutex == Nobody
    ensures var t := Next(cfg, s, ScannerStep);
            t.c.at == Idle && t.c.scans == s.c.scans + [Raised(s.error.value)] && t.buffer == s.buffer
  {
  }

  /** A call takes as many rows as there are, up to a vector. */
  lemma DrainsAllItCan(cfg: Config, s: State)
    requires Reachable(cfg, s) && s.c.at == Draining && Next(cfg, s, ScannerStep).c.at == Freeing
    ensures |s.c.output| == cfg.vectorSize || s.buffer == []
  {
    InvReachable(cfg, s);
  }

  /** And it returns what it took. */
  lemma ReturnsWhatItTook(cfg: Config, s: State)
    requires Reachable(cfg, s) && s.c.at == Freeing
    ensures Next(cfg, s, ScannerStep).c.scans == s.c.scans + [Delivered(s.c.output)]
  {
  }

  /** A cancelled scan keeps no error that comes later. */
  lemma CancelledStoresNoError(cfg: Config, s: State, a: Action)
    requires Reachable(cfg, s) && s.cancelled && Enabled(s, a)
    ensures Next(cfg, s, a).error == s.error
  {
    match a
    case ProducerStep => CancelledProducerStoresNothing(cfg, s);
    case ScannerStep => ScannerStoresNothing(cfg, s);
    case _ =>
  }

  lemma ScannerStoresNothing(cfg: Config, s: State)
    requires ScannerEnabled(s)
    ensures ScannerNext(cfg, s).error == s.error
  {
  }

  lemma ParseLineStoresNothing(s: State, line: string, outcome: LineOutcome, more: string, last: bool)
    ensures ParseLine(s, line, outcome, more, last).error == s.error
  {
  }

  lemma CancelledProducerStoresNothing(cfg: Config, s: State)
    requires s.cancelled && ProducerEnabled(s)
    ensures ProducerNext(cfg, s).error == s.error
  {
    match s.p.at
    case Splitting =>
      if !s.p.limitReached && CutLine(s.p.rest).Cut? {
        var cut := CutLine(s.p.rest);
        ParseLineStoresNothing(s, cut.line, cfg.parser(cut.line), cut.more, false);
      }
    case Flushing => ParseLineStoresNothing(s, s.p.rest, cfg.parser(s.p.rest), "", true);
    case _ =>
  }
}
