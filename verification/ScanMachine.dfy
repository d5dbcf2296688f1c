/**
 * The native streaming scan as a step system: one producer thread, one scanning thread that finally
 * destroys the state, a mutex, two condition variables, and a network and an interrupt that may act
 * at any moment. A step ends wherever another thread could intervene: at every lock, wait, notify and
 * network read, and between two reads of the interrupt flag, which no mutex protects.
 */
module ScanMachine {
  import opened Common
  import opened EventMapping
  import opened ExportRecords
  import opened Lines
  import opened Reference
  import RetryPolicy

  /** `vectorSize` is STANDARD_VECTOR_SIZE and `cap` is max_rows, 0 meaning unlimited. */
  datatype Config = Config(vectorSize: nat, cap: nat, parser: LineParser) {
    function Capacity(): nat { 2 * vectorSize }
  }

  /** Why the producer's `try` block was left by an exception. */
  datatype Failure = Search(error: SearchError) | Request(cause: RetryPolicy.Finish)

  datatype ProducerAt =
    | Unstarted
    | Receiving    // inside ExportSearch, waiting for the network
    | Splitting    // head of the newline loop
    | Emitting     // between two events of one line
    | Locking      // about to lock the mutex and test the wait predicate for the next row
    | Blocking     // holds the mutex: the predicate was false
    | Sleeping     // blocked on space_available
    | Deciding     // holds the mutex: about to read the flags once more and push
    | Notifying    // about to notify rows_available
    | Flushing     // ExportSearch returned
    | Catching     // in the catch handler, about to lock
    | Finishing    // about to lock and set `finished`
    | Announcing   // about to notify rows_available for the last time
    | Exited

  datatype ScannerAt =
    | Idle         // between two calls
    | Entering     // about to lock the mutex and test the wait loop's guard
    | Polling      // holds the mutex: about to read the interrupt flag
    | Dozing       // blocked on rows_available, at most 100 ms
    | Halting      // interrupted: about to notify space_available and throw
    | Draining     // holds the mutex: moving rows into the chunk
    | Freeing      // about to notify space_available and return
    | Cancelling   // destructor: about to lock and set `cancelled`
    | Waiving      // destructor: about to notify space_available and cancel the request
    | Joining      // destructor: waiting for the producer to exit
    | Destroyed

  datatype Holder = Nobody | Producer | Scanner

  /** How one scan call ended. */
  datatype Scan = Delivered(rows: seq<Row>) | Raised(failure: Failure) | Interrupted

  datatype ProducerState = ProducerState(
    at: ProducerAt,
    rest: string,               // bytes received and not yet cut into lines
    queue: seq<Row>,            // rows of the current line not yet offered
    produced: nat,
    limitReached: bool,
    lastLine: bool,             // the line being emitted is the unterminated tail
    ended: bool,                // the request completed
    notified: bool,             // a notification arrived while asleep
    caught: Option<Failure>)

  datatype ScannerState = ScannerState(
    at: ScannerAt,
    output: seq<Row>,           // the chunk of the current call
    notified: bool,
    scans: seq<Scan>)           // the calls that have ended

  datatype State = State(
    p: ProducerState,
    c: ScannerState,
    mutex: Holder,
    buffer: seq<Row>,
    finished: bool,
    cancelled: bool,
    error: Option<Failure>,
    interrupted: bool,
    stream: string,             // all bytes delivered by the network
    done: seq<string>)          // all lines handed to parse_line

  datatype Action =
    | Interrupt
    | Chunk(data: string)
    | RequestEnds
    | RequestFails(cause: RetryPolicy.Finish)
    | ProducerStep
    | ProducerWakes(spurious: bool)
    | StartScan
    | StartDestroy
    | ScannerStep
    | ScannerWakes(timed: bool)

  function Initial(): State {
    State(ProducerState(Unstarted, "", [], 0, false, false, false, false, None),
          ScannerState(Idle, [], false, []),
          Nobody, [], false, false, None, false, "", [])
  }

  /** Notifying a condition variable wakes a thread only if it is asleep on it. */
  function NotifyScanner(s: State): State {
    if s.c.at == Dozing then s.(c := s.c.(notified := true)) else s
  }

  function NotifyProducer(s: State): State {
    if s.p.at == Sleeping then s.(p := s.p.(notified := true)) else s
  }

  //------------------------------------------------------------------ the producer

  /** The first line of the bytes at hand, if it is complete. */
  datatype Cut = NoLine | Cut(line: string, more: string)

  function CutLine(rest: string): Cut {
    var newline := FirstNewline(rest);
    if newline == |rest| then NoLine else Cut(rest[..newline], rest[newline + 1..])
  }

  /** Parse one line: its rows are queued, or its error is thrown. */
  function ParseLine(s: State, line: string, outcome: LineOutcome, more: string, last: bool): State {
    match outcome
    case Fails(e) =>
      s.(done := s.done + [line],
         p := s.p.(rest := more, lastLine := last, at := Catching, caught := Some(Search(e))))
    case Yields(rows) =>
      s.(done := s.done + [line], p := s.p.(rest := more, lastLine := last, at := Emitting, queue := rows))
  }

  /** The newline loop: parse the next complete line, or return to the network. */
  function Split(cfg: Config, s: State): State {
    if s.p.limitReached then s.(p := s.p.(at := Flushing))
    else
      match CutLine(s.p.rest)
      case NoLine => s.(p := s.p.(at := Receiving))
      case Cut(line, more) => ParseLine(s, line, cfg.parser(line), more, false)
  }

  /** After the request: parse the unterminated tail. */
  function Flush(cfg: Config, s: State): State {
    if !s.p.limitReached && s.p.rest != "" then ParseLine(s, s.p.rest, cfg.parser(s.p.rest), "", true)
    else s.(p := s.p.(at := Finishing))
  }

  /** The event callback up to the lock: skip, notice the cap, or go for the mutex. */
  function Emit(cfg: Config, s: State): State {
    var p := s.p;
    if p.queue == [] then s.(p := p.(at := if p.lastLine then Finishing else Splitting))
    else if p.limitReached then s.(p := p.(queue := p.queue[1..]))
    else if cfg.cap > 0 && p.produced >= cfg.cap then s.(p := p.(limitReached := true, queue := p.queue[1..]))
    else s.(p := p.(at := Locking))
  }

  /** `space_available.wait` with its predicate. */
  function Wait(cfg: Config, s: State): State {
    if s.p.at == Locking then
      s.(mutex := Producer,
         p := s.p.(at := if s.cancelled || s.interrupted || |s.buffer| < cfg.Capacity() then Deciding else Blocking))
    else
      s.(mutex := Nobody, p := s.p.(at := Sleeping, notified := false))
  }

  /** After the wait, still holding the mutex: give up, or push the row. */
  function Push(s: State): State
    requires s.p.queue != []
  {
    var p := s.p;
    if s.cancelled || s.interrupted then
      s.(mutex := Nobody, p := p.(at := Emitting, limitReached := true, queue := p.queue[1..]))
    else
      s.(mutex := Nobody, buffer := s.buffer + [p.queue[0]],
         p := p.(at := Notifying, produced := p.produced + 1, queue := p.queue[1..]))
  }

  /** The catch handler and the epilogue. */
  function Finish(s: State): State {
    match s.p.at
    case Catching => s.(error := if s.cancelled then s.error else s.p.caught, p := s.p.(at := Finishing))
    case Finishing => s.(finished := true, p := s.p.(at := Announcing))
    case _ => NotifyScanner(s.(p := s.p.(at := Exited)))
  }

  predicate ProducerEnabled(s: State) {
    match s.p.at
    case Unstarted => false
    case Receiving => false
    case Sleeping => false
    case Exited => false
    case Locking => s.mutex == Nobody
    case Catching => s.mutex == Nobody
    case Finishing => s.mutex == Nobody
    case Deciding => s.p.queue != []
    case _ => true
  }

  function ProducerNext(cfg: Config, s: State): State
    requires ProducerEnabled(s)
  {
    match s.p.at
    case Splitting => Split(cfg, s)
    case Flushing => Flush(cfg, s)
    case Emitting => Emit(cfg, s)
    case Locking => Wait(cfg, s)
    case Blocking => Wait(cfg, s)
    case Deciding => Push(s)
    case Notifying => NotifyScanner(s.(p := s.p.(at := Emitting)))
    case _ => Finish(s)
  }

  //------------------------------------------------------------------ the scanning thread

  /** The wait loop's guard, then the error test, under the mutex. */
  function Enter(s: State): State {
    if s.buffer == [] && !s.finished && s.error.None? then s.(mutex := Scanner, c := s.c.(at := Polling))
    else if s.error.Some? then s.(c := s.c.(at := Idle, scans := s.c.scans + [Raised(s.error.value)]))
    else s.(mutex := Scanner, c := s.c.(at := Draining))
  }

  /** The wait loop's body: give up when interrupted, or sleep. */
  function Poll(s: State): State {
    if s.interrupted then s.(cancelled := true, mutex := Nobody, c := s.c.(at := Halting))
    else s.(mutex := Nobody, c := s.c.(at := Dozing, notified := false))
  }

  function Drain(cfg: Config, s: State): State {
    if |s.c.output| < cfg.vectorSize && s.buffer != [] then
      s.(buffer := s.buffer[1..], c := s.c.(output := s.c.output + [s.buffer[0]]))
    else s.(mutex := Nobody, c := s.c.(at := Freeing))
  }

  /** The end of a call: notify the producer, and return the chunk or throw. */
  function Leave(s: State): State {
    NotifyProducer(
      if s.c.at == Freeing then
        s.(c := s.c.(at := Idle, output := [], scans := s.c.scans + [Delivered(s.c.output)]))
      else s.(c := s.c.(at := Idle, scans := s.c.scans + [Interrupted])))
  }

  function Destroy(s: State): State {
    match s.c.at
    case Cancelling => s.(cancelled := true, c := s.c.(at := Waiving))
    case Waiving => NotifyProducer(s.(c := s.c.(at := Joining)))
    case _ => s.(c := s.c.(at := Destroyed))
  }

  predicate ScannerEnabled(s: State) {
    match s.c.at
    case Idle => false
    case Dozing => false
    case Destroyed => false
    case Entering => s.mutex == Nobody
    case Cancelling => s.mutex == Nobody
    case Joining => s.p.at == Unstarted || s.p.at == Exited
    case _ => true
  }

  function ScannerNext(cfg: Config, s: State): State
    requires ScannerEnabled(s)
  {
    match s.c.at
    case Entering => Enter(s)
    case Polling => Poll(s)
    case Draining => Drain(cfg, s)
    case Freeing => Leave(s)
    case Halting => Leave(s)
    case _ => Destroy(s)
  }

  //------------------------------------------------------------------ steps and runs

  predicate Enabled(s: State, a: Action) {
    match a
    case Interrupt => true
    case Chunk(_) => s.p.at == Receiving
    case RequestEnds => s.p.at == Receiving
    case RequestFails(_) => s.p.at == Receiving
    case ProducerStep => ProducerEnabled(s)
    case ProducerWakes(spurious) => s.p.at == Sleeping && (s.p.notified || spurious)
    case StartScan => s.c.at == Idle
    case StartDestroy => s.c.at == Idle
    case ScannerStep => ScannerEnabled(s)
    case ScannerWakes(timed) => s.c.at == Dozing && (s.c.notified || timed)
  }

  function Next(cfg: Config, s: State, a: Action): State
    requires Enabled(s, a)
  {
    match a
    case ProducerStep => ProducerNext(cfg, s)
    case ScannerStep => ScannerNext(cfg, s)
    case _ => Outside(s, a)
  }

  /** Steps of the network, the executor and the scheduler. */
  function Outside(s: State, a: Action): State {
    match a
    case Interrupt => s.(interrupted := true)
    case Chunk(data) => s.(stream := s.stream + data, p := s.p.(at := Splitting, rest := s.p.rest + data))
    case RequestEnds => s.(p := s.p.(at := Flushing, ended := true))
    case RequestFails(cause) => s.(p := s.p.(at := Catching, caught := Some(Request(cause))))
    case ProducerWakes(_) => s.(p := s.p.(at := Locking))
    case StartScan =>
      s.(c := s.c.(at := Entering), p := if s.p.at == Unstarted then s.p.(at := Receiving) else s.p)
    case StartDestroy => s.(c := s.c.(at := Cancelling))
    case ScannerWakes(_) => s.(c := s.c.(at := Entering))
    case _ => s
  }

  /** `run` leads from `s` to `t`. */
  predicate Leads(cfg: Config, s: State, run: seq<Action>, t: State)
    decreases |run|
  {
    if run == [] then s == t
    else Enabled(s, run[0]) && Leads(cfg, Next(cfg, s, run[0]), run[1..], t)
  }

  ghost predicate Reachable(cfg: Config, s: State) {
    cfg.vectorSize > 0 && exists run :: Leads(cfg, Initial(), run, s)
  }

  //------------------------------------------------------------------ what is observed

  /** The rows handed out by the calls that have ended. */
  function Emitted(scans: seq<Scan>): seq<Row> {
    if scans == [] then []
    else
      Emitted(scans[..|scans| - 1]) +
      match scans[|scans| - 1] case Delivered(rows) => rows case _ => []
  }

  /** Every row that ever entered the buffer, in order. */
  function Pushed(s: State): seq<Row> {
    Emitted(s.c.scans) + (s.c.output + s.buffer)
  }

  /** Some call returned no rows: the end of the result. */
  predicate SawEnd(s: State) {
    Delivered([]) in s.c.scans
  }
}
