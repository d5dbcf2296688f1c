/** The two native request loops: the streaming export, and the plain authenticated request. */
module ExportSearch {
  import opened Common
  import opened RetryPolicy

  /** How the consumer's callback ends: it wants more, wants no more, or throws. */
  datatype Reply = Wants | Refuses | Throws

  /** The reply to the newest chunk, given all chunks received, the newest last. */
  type Consumer = seq<string> -> Reply

  //------------------------------------------------------------------ one exchange

  /** The chunks the consumer has after `chunks` are offered: up to the first one it does not want more after. */
  function Offer(consumer: Consumer, received: seq<string>, chunks: seq<string>): seq<string>
    decreases |chunks|
  {
    if chunks == [] then received
    else
      var now := received + [chunks[0]];
      if consumer(now).Wants? then Offer(consumer, now, chunks[1..]) else now
  }

  /** How that ends. */
  function Answer(consumer: Consumer, received: seq<string>, chunks: seq<string>): Reply
    decreases |chunks|
  {
    if chunks == [] then Wants
    else
      var now := received + [chunks[0]];
      if consumer(now).Wants? then Answer(consumer, now, chunks[1..]) else consumer(now)
  }

  /** Only a 2xx body reaches the consumer. */
  function Reaching(x: Exchange): seq<string> {
    if x.Succeeds() then x.chunks else []
  }

  function Take(s: string, n: nat): (r: string)
    ensures r <= s && |r| <= n
  {
    if |s| <= n then s else s[..n]
  }

  const ERROR_BODY_LIMIT: nat := 4096

  /** The kept part of an error response: its first bytes, however they were chunked. */
  function ErrorBody(x: Exchange): string {
    if x.Answered? && !x.Succeeds() then Take(Flatten(x.chunks), ERROR_BODY_LIMIT) else ""
  }

  //------------------------------------------------------------------ whole runs

  /** Everything observable about one call of the export loop. */
  datatype Run = Run(
    finish: Finish,
    requests: nat,            // requests sent
    delays: seq<nat>,         // seconds slept after each retried attempt
    received: seq<string>,    // chunks handed to the consumer
    starts: seq<string>,      // bytes the consumer already had when each attempt began
    resets: nat,              // connections dropped after a transport error
    errorBody: string)

  /** One attempt: it ends the run, or is followed by another one. */
  datatype Turn = Over(run: Run) | Again(delay: nat, now: seq<string>, start: string, reset: nat)

  function TakeTurn(turn: Attempt, consumer: Consumer, retries: nat, attempt: nat, received: seq<string>): (t: Turn)
    requires attempt <= retries <= 64
    ensures t.Again? ==> attempt < retries && 1 <= t.delay <= 60
  {
    if turn.interruptedBefore then Over(Run(Interrupted, attempt, [], received, [], 0, ""))
    else
      var x := turn.exchange;
      var chunks := Reaching(x);
      var now := Offer(consumer, received, chunks);
      var start := Flatten(received);
      match Answer(consumer, received, chunks)
      case Refuses => Over(Run(StoppedByConsumer, attempt + 1, [], now, [start], 0, ""))
      case Throws => Over(Run(ConsumerThrew, attempt + 1, [], now, [start], 0, ""))
      case Wants =>
        var reset := if x.TransportFailure().Some? then 1 else 0;
        match Judge(x, attempt, retries, |Flatten(chunks)|)
        case End(finish) => Over(Run(finish, attempt + 1, [], now, [start], reset, ErrorBody(x)))
        case Retry(delay) =>
          if turn.interruptedWaiting then Over(Run(Interrupted, attempt + 1, [delay], now, [start], reset, ""))
          else Again(delay, now, start, reset)
  }

  /** The run from attempt number `attempt` on. */
  function ExportFrom(net: Network, consumer: Consumer, retries: nat, attempt: nat, received: seq<string>): (r: Run)
    requires attempt <= retries <= 64
    decreases retries - attempt
  {
    match TakeTurn(net(attempt), consumer, retries, attempt, received)
    case Over(run) => run
    case Again(delay, now, start, reset) =>
      Prepend([delay], [start], reset, ExportFrom(net, consumer, retries, attempt + 1, now))
  }

  /** What was observed before, put in front of what a run observes. */
  function Prepend(delays: seq<nat>, starts: seq<string>, resets: nat, r: Run): Run {
    r.(delays := delays + r.delays, starts := starts + r.starts, resets := resets + r.resets)
  }

  function ExportRun(net: Network, consumer: Consumer, retries: nat): Run
    requires retries <= 64
  {
    ExportFrom(net, consumer, retries, 0, [])
  }

  /** The plain request keeps its body, so nothing forbids sending it again. */
  datatype PlainRun = PlainRun(finish: Finish, requests: nat, delays: seq<nat>, body: string)

  datatype PlainTurn = PlainOver(run: PlainRun) | PlainAgain(delay: nat)

  function TakePlainTurn(turn: Attempt, retries: nat, attempt: nat): (t: PlainTurn)
    requires attempt <= retries <= 64
    ensures t.PlainAgain? ==> attempt < retries && 1 <= t.delay <= 60
  {
    if turn.interruptedBefore then PlainOver(PlainRun(Interrupted, attempt, [], ""))
    else
      match Judge(turn.exchange, attempt, retries, 0)
      case End(finish) =>
        PlainOver(PlainRun(finish, attempt + 1, [], if finish.Completed? then Flatten(turn.exchange.chunks) else ""))
      case Retry(delay) =>
        if turn.interruptedWaiting then PlainOver(PlainRun(Interrupted, attempt + 1, [delay], "")) else PlainAgain(delay)
  }

  function PlainFrom(net: Network, retries: nat, attempt: nat): PlainRun
    requires attempt <= retries <= 64
    decreases retries - attempt
  {
    match TakePlainTurn(net(attempt), retries, attempt)
    case PlainOver(run) => run
    case PlainAgain(delay) => PlainPrepend([delay], PlainFrom(net, retries, attempt + 1))
  }

  //------------------------------------------------------------------ the loops

  class SplunkClient {
    const retries: nat
    /** The keep-alive connection: is there one, and how many were openings. */
    var connected: bool
    var openings: nat

    constructor (retries: nat)
      ensures this.retries == retries && !connected && openings == 0
    {
      this.retries, connected, openings := retries, false, 0;
    }

    method GetConnection()
      modifies this
      ensures connected && openings == old(openings) + if old(connected) then 0 else 1
    {
      if !connected {
        connected, openings := true, openings + 1;
      }
    }

    method Reset()
      modifies this
      ensures !connected && openings == old(openings)
    {
      connected := false;
    }

    /** The content receiver over one response body. */
    method Receive(x: Exchange, consumer: Consumer, received: seq<string>)
      returns (now: seq<string>, reply: Reply, successBytes: nat, errorBody: string)
      ensures now == Offer(consumer, received, Reaching(x))
      ensures reply == Answer(consumer, received, Reaching(x))
      ensures reply.Wants? ==> successBytes == |Flatten(Reaching(x))|
      ensures errorBody == ErrorBody(x)
    {
      now, reply, successBytes, errorBody := received, Wants, 0, "";
      if x.Unanswered? { return; }
      var chunks := x.chunks;
      var i := 0;
      assert chunks[0..] == chunks && chunks[..0] == [];
      while i < |chunks|
        invariant 0 <= i <= |chunks| && reply.Wants?
        invariant x.Succeeds() ==> errorBody == "" && successBytes == |Flatten(chunks[..i])|
        invariant x.Succeeds() ==> Offer(consumer, received, chunks) == Offer(consumer, now, chunks[i..])
        invariant x.Succeeds() ==> Answer(consumer, received, chunks) == Answer(consumer, now, chunks[i..])
        invariant !x.Succeeds() ==> now == received && successBytes == 0
                                    && errorBody == Take(Flatten(chunks[..i]), ERROR_BODY_LIMIT)
      {
        assert chunks[..i + 1] == chunks[..i] + [chunks[i]];
        FlattenSnoc(chunks[..i], chunks[i]);
        if x.Succeeds() {
          assert chunks[i..][0] == chunks[i] && chunks[i..][1..] == chunks[i + 1..];
          now := now + [chunks[i]];
          reply := consumer(now);
          if !reply.Wants? { return; }
          successBytes := successBytes + |chunks[i]|;
        } else if |errorBody| < ERROR_BODY_LIMIT {
          errorBody := errorBody + Take(chunks[i], ERROR_BODY_LIMIT - |errorBody|);
        }
        i := i + 1;
      }
      assert chunks[..|chunks|] == chunks;
    }

    /** One pass through the attempt loop. */
    method TryOnce(turn: Attempt, consumer: Consumer, attempt: nat, received: seq<string>) returns (t: Turn)
      requires attempt <= retries <= 64
      modifies this
      ensures t == TakeTurn(turn, consumer, retries, attempt, received)
      ensures !turn.interruptedBefore ==>
                openings + (if connected then 0 else 1) == old(openings) + (if old(connected) then 0 else 1)
                                                           + (if t.Over? then t.run.resets else t.reset)
      ensures turn.interruptedBefore ==> openings == old(openings) && connected == old(connected)
    {
      if turn.interruptedBefore {
        return Over(Run(Interrupted, attempt, [], received, [], 0, ""));
      }
      GetConnection();
      var x := turn.exchange;
      var start := Flatten(received);
      var now, reply, successBytes, errorBody := Receive(x, consumer, received);
      if reply.Throws? {
        return Over(Run(ConsumerThrew, attempt + 1, [], now, [start], 0, ""));
      }
      if reply.Refuses? {
        return Over(Run(StoppedByConsumer, attempt + 1, [], now, [start], 0, ""));
      }
      var reset := 0;
      if x.TransportFailure().Some? {
        Reset();
        reset := 1;
      }
      match Judge(x, attempt, retries, successBytes)
      case End(finish) => t := Over(Run(finish, attempt + 1, [], now, [start], reset, errorBody));
      case Retry(delay) =>
        if turn.interruptedWaiting {
          t := Over(Run(Interrupted, attempt + 1, [delay], now, [start], reset, ""));
        } else {
          t := Again(delay, now, start, reset);
        }
    }

    /**
     * Sends the export until it completes, is stopped, or may not be retried. Every request uses a live
     * connection, and exactly the failed ones drop theirs.
     */
    method ExportSearch(net: Network, consumer: Consumer) returns (r: Run)
      requires retries <= 64
      modifies this
      ensures r == ExportRun(net, consumer, retries)
      ensures openings + (if connected then 0 else 1) == old(openings) + (if old(connected) then 0 else 1) + r.resets
    {
      var attempt := 0;
      var received: seq<string> := [];
      var delays: seq<nat>, starts: seq<string>, resets := [], [], 0;
      CourseStart(net, consumer, retries);
      while true
        invariant attempt <= retries
        invariant OnCourse(net, consumer, retries, attempt, received, delays, starts, resets)
        invariant openings + (if connected then 0 else 1) == old(openings) + (if old(connected) then 0 else 1) + resets
        decreases retries - attempt
      {
        var t := TryOnce(net(attempt), consumer, attempt, received);
        CourseStep(net, consumer, retries, attempt, received, delays, starts, resets);
        match t
        case Over(run) => return Prepend(delays, starts, resets, run);
        case Again(delay, now, start, reset) =>
          delays, starts, resets := delays + [delay], starts + [start], resets + reset;
          received := now;
          attempt := attempt + 1;
      }
    }

    method TryPlainOnce(turn: Attempt, attempt: nat) returns (t: PlainTurn)
      requires attempt <= retries <= 64
      modifies this
      ensures t == TakePlainTurn(turn, retries, attempt)
    {
      if turn.interruptedBefore {
        return PlainOver(PlainRun(Interrupted, attempt, [], ""));
      }
      GetConnection();
      var x := turn.exchange;
      if x.TransportFailure().Some? {
        Reset();
      }
      match Judge(x, attempt, retries, 0)
      case End(finish) =>
        t := PlainOver(PlainRun(finish, attempt + 1, [], if finish.Completed? then Flatten(x.chunks) else ""));
      case Retry(delay) =>
        t := if turn.interruptedWaiting then PlainOver(PlainRun(Interrupted, attempt + 1, [delay], "")) else PlainAgain(delay);
    }

    /** `AuthenticatedRequest`: the same policy around a request whose body is returned whole. */
    method AuthenticatedRequest(net: Network) returns (r: PlainRun)
      requires retries <= 64
      modifies this
      ensures r == PlainFrom(net, retries, 0)
    {
      var attempt := 0;
      var delays: seq<nat> := [];
      while true
        invariant attempt <= retries && PlainOnCourse(net, retries, attempt, delays)
        decreases retries - attempt
      {
        var t := TryPlainOnce(net(attempt), attempt);
        PlainCourseStep(net, retries, attempt, delays);
        match t
        case PlainOver(run) => return PlainPrepend(delays, run);
        case PlainAgain(delay) =>
          delays := delays + [delay];
          attempt := attempt + 1;
      }
    }
  }

  predicate PlainOnCourse(net: Network, retries: nat, attempt: nat, delays: seq<nat>)
    requires attempt <= retries <= 64
  {
    PlainPrepend(delays, PlainFrom(net, retries, attempt)) == PlainFrom(net, retries, 0)
  }

  function PlainPrepend(delays: seq<nat>, r: PlainRun): PlainRun {
    r.(delays := delays + r.delays)
  }

  lemma PlainCourseStep(net: Network, retries: nat, attempt: nat, delays: seq<nat>)
    requires attempt <= retries <= 64 && PlainOnCourse(net, retries, attempt, delays)
    ensures match TakePlainTurn(net(attempt), retries, attempt)
            case PlainOver(run) => PlainPrepend(delays, run) == PlainFrom(net, retries, 0)
            case PlainAgain(delay) => PlainOnCourse(net, retries, attempt + 1, delays + [delay])
  {
    match TakePlainTurn(net(attempt), retries, attempt)
    case PlainOver(_) =>
    case PlainAgain(delay) =>
      var rest := PlainFrom(net, retries, attempt + 1).delays;
      assert delays + ([delay] + rest) == delays + [delay] + rest;
  }

  /** The observations so far, continued from attempt `attempt` on, are the whole run. */
  predicate OnCourse(net: Network, consumer: Consumer, retries: nat, attempt: nat, received: seq<string>,
                     delays: seq<nat>, starts: seq<string>, resets: nat)
    requires attempt <= retries <= 64
  {
    Prepend(delays, starts, resets, ExportFrom(net, consumer, retries, attempt, received)) == ExportRun(net, consumer, retries)
  }

  lemma CourseStart(net: Network, consumer: Consumer, retries: nat)
    requires retries <= 64
    ensures OnCourse(net, consumer, retries, 0, [], [], [], 0)
  {
  }

  lemma CourseStep(net: Network, consumer: Consumer, retries: nat, attempt: nat, received: seq<string>,
                   delays: seq<nat>, starts: seq<string>, resets: nat)
    requires attempt <= retries <= 64
    requires OnCourse(net, consumer, retries, attempt, received, delays, starts, resets)
    ensures match TakeTurn(net(attempt), consumer, retries, attempt, received)
            case Over(run) => Prepend(delays, starts, resets, run) == ExportRun(net, consumer, retries)
            case Again(delay, now, start, reset) =>
              OnCourse(net, consumer, retries, attempt + 1, now, delays + [delay], starts + [start], resets + reset)
  {
    match TakeTurn(net(attempt), consumer, retries, attempt, received)
    case Over(_) =>
    case Again(delay, now, start, reset) =>
      PrependStep(delays, starts, resets, delay, start, reset, ExportFrom(net, consumer, retries, attempt + 1, now));
  }

  lemma PrependStep(delays: seq<nat>, starts: seq<string>, resets: nat, delay: nat, start: string, reset: nat, r: Run)
    ensures Prepend(delays, starts, resets, Prepend([delay], [start], reset, r))
            == Prepend(delays + [delay], starts + [start], resets + reset, r)
  {
  }

  //------------------------------------------------------------------ no byte is replayed

  /** What the consumer gets from one exchange is a prefix of its body, and all of it if it always wants more. */
  lemma {:induction false} OfferedBytes(consumer: Consumer, received: seq<string>, chunks: seq<string>)
    ensures Flatten(Offer(consumer, received, chunks)) <= Flatten(received) + Flatten(chunks)
    ensures Answer(consumer, received, chunks).Wants? ==>
              Flatten(Offer(consumer, received, chunks)) == Flatten(received) + Flatten(chunks)
    decreases |chunks|
  {
    if chunks == [] {
      assert Flatten(received) + [] == Flatten(received);
    } else {
      var now := received + [chunks[0]];
      FlattenSnoc(received, chunks[0]);
      assert Flatten(now) + Flatten(chunks[1..]) == Flatten(received) + (chunks[0] + Flatten(chunks[1..]));
      if consumer(now).Wants? {
        OfferedBytes(consumer, now, chunks[1..]);
      }
    }
  }

  /** The body of the last request sent; "" when none was sent or none answered with success. */
  function LastBody(net: Network, r: Run): string {
    if r.requests == 0 then "" else Flatten(Reaching(net(r.requests - 1).exchange))
  }

  /** The consumer is empty-handed whenever an attempt begins, and ends with a prefix of one success body. */
  predicate SingleBody(net: Network, r: Run) {
    && (forall i :: 0 <= i < |r.starts| ==> r.starts[i] == "")
    && Flatten(r.received) <= LastBody(net, r)
    && (r.finish.Completed? ==> Flatten(r.received) == LastBody(net, r) && r.requests > 0
                                && net(r.requests - 1).exchange.Succeeds())
    && (r.finish.TransportFailed? ==> r.finish.bytes == |Flatten(r.received)|)
    && (r.finish.HttpFailed? || r.finish.Interrupted? ==> Flatten(r.received) == "")
  }

  /** A run whose last request was its only one to reach the consumer. */
  lemma LastRequestOnly(net: Network, attempt: nat, run: Run)
    requires run.requests == attempt + 1 && run.starts == [""]
    requires Flatten(run.received) <= Flatten(Reaching(net(attempt).exchange))
    requires run.finish.Completed? ==>
               Flatten(run.received) == Flatten(Reaching(net(attempt).exchange)) && net(attempt).exchange.Succeeds()
    requires run.finish.TransportFailed? ==> run.finish.bytes == |Flatten(run.received)|
    requires run.finish.HttpFailed? || run.finish.Interrupted? ==> Flatten(run.received) == ""
    ensures SingleBody(net, run)
  {
  }

  /** What a verdict says about the bytes that reached the consumer. */
  lemma VerdictOnBytes(x: Exchange, attempt: nat, retries: nat)
    requires attempt <= retries <= 64
    ensures var bytes := |Flatten(Reaching(x))|;
            match Judge(x, attempt, retries, bytes)
            case End(Completed) => x.Succeeds()
            case End(TransportFailed(n, _)) => n == bytes
            case End(HttpFailed(_)) => bytes == 0
            case End(_) => false
            case Retry(_) => bytes == 0
  {
  }

  /** One attempt, begun empty-handed, is followed by another one only empty-handed. */
  lemma NoReplayTurn(net: Network, consumer: Consumer, retries: nat, attempt: nat, received: seq<string>)
    requires attempt <= retries <= 64 && Flatten(received) == ""
    ensures match TakeTurn(net(attempt), consumer, retries, attempt, received)
            case Over(run) => SingleBody(net, run)
            case Again(_, now, start, _) => start == "" && Flatten(now) == ""
  {
    var x := net(attempt).exchange;
    var chunks := Reaching(x);
    OfferedBytes(consumer, received, chunks);
    assert "" + Flatten(chunks) == Flatten(chunks);
    VerdictOnBytes(x, attempt, retries);
    match TakeTurn(net(attempt), consumer, retries, attempt, received)
    case Over(run) => if !net(attempt).interruptedBefore { LastRequestOnly(net, attempt, run); }
    case Again(_, _, _, _) =>
  }

  lemma {:induction false} NoReplayFrom(net: Network, consumer: Consumer, retries: nat, attempt: nat, received: seq<string>)
    requires attempt <= retries <= 64 && Flatten(received) == ""
    ensures SingleBody(net, ExportFrom(net, consumer, retries, attempt, received))
    decreases retries - attempt
  {
    NoReplayTurn(net, consumer, retries, attempt, received);
    match TakeTurn(net(attempt), consumer, retries, attempt, received)
    case Over(_) =>
    case Again(delay, now, start, reset) =>
      NoReplayFrom(net, consumer, retries, attempt + 1, now);
      SingleBodyLater(net, delay, reset, ExportFrom(net, consumer, retries, attempt + 1, now));
  }

  /** An attempt that was begun empty-handed may be put in front. */
  lemma SingleBodyLater(net: Network, delay: nat, reset: nat, r: Run)
    requires SingleBody(net, r)
    ensures SingleBody(net, Prepend([delay], [""], reset, r))
  {
  }

  /**
   * Whatever the network does and whenever the consumer stops: no attempt starts after bytes have
   * reached the consumer, so all it ever sees is a prefix of one success body.
   */
  lemma NoByteIsReplayed(net: Network, consumer: Consumer, retries: nat)
    requires retries <= 64
    ensures SingleBody(net, ExportRun(net, consumer, retries))
  {
    NoReplayFrom(net, consumer, retries, 0, []);
  }

  //------------------------------------------------------------------ bounds

  lemma {:induction false} BudgetFrom(net: Network, consumer: Consumer, retries: nat, attempt: nat, received: seq<string>)
    requires attempt <= retries <= 64
    ensures var r := ExportFrom(net, consumer, retries, attempt, received);
            && attempt <= r.requests <= retries + 1
            && |r.starts| == r.requests - attempt
            && r.requests - attempt - 1 <= |r.delays| <= r.requests - attempt
            && |r.delays| <= retries - attempt
            && (forall i :: 0 <= i < |r.delays| ==> 1 <= r.delays[i] <= 60)
            && |r.errorBody| <= ERROR_BODY_LIMIT
    decreases retries - attempt
  {
    var t := TakeTurn(net(attempt), consumer, retries, attempt, received);
    if t.Again? {
      BudgetFrom(net, consumer, retries, attempt + 1, t.now);
    }
  }

  /** At most `retries + 1` requests; every sleep takes 1 to 60 seconds, all together at most 60 * retries. */
  lemma RetryBudget(net: Network, consumer: Consumer, retries: nat)
    requires retries <= 64
    ensures var r := ExportRun(net, consumer, retries);
            && r.requests <= retries + 1 && |r.delays| <= retries
            && (forall i :: 0 <= i < |r.delays| ==> 1 <= r.delays[i] <= 60)
            && Sum(r.delays) <= 60 * retries
  {
    BudgetFrom(net, consumer, retries, 0, []);
    SumBounds(ExportRun(net, consumer, retries).delays);
  }

  /** No response carries a Retry-After. */
  ghost predicate NoAdvice(net: Network) {
    forall k :: net(k).exchange.Answered? ==> net(k).exchange.retryAfter.None?
  }

  /** The delays are the backoffs from attempt `attempt` on. */
  predicate AreBackoffs(delays: seq<nat>, attempt: nat) {
    attempt + |delays| <= 64 && forall i :: 0 <= i < |delays| ==> delays[i] == Backoff(attempt + i)
  }

  lemma PlainDelayTurn(turn: Attempt, consumer: Consumer, retries: nat, attempt: nat, received: seq<string>)
    requires attempt <= retries <= 64
    requires turn.exchange.Answered? ==> turn.exchange.retryAfter.None?
    ensures match TakeTurn(turn, consumer, retries, attempt, received)
            case Over(run) => AreBackoffs(run.delays, attempt)
            case Again(delay, _, _, _) => delay == Backoff(attempt)
  {
  }

  lemma BackoffsFrom(attempt: nat, later: seq<nat>)
    requires attempt < 64 && AreBackoffs(later, attempt + 1)
    ensures AreBackoffs([Backoff(attempt)] + later, attempt)
  {
    var d := [Backoff(attempt)] + later;
    assert forall i :: 0 < i < |d| ==> d[i] == later[i - 1];
  }

  lemma {:induction false} PlainDelays(net: Network, consumer: Consumer, retries: nat, attempt: nat, received: seq<string>)
    requires attempt <= retries <= 64 && NoAdvice(net)
    ensures AreBackoffs(ExportFrom(net, consumer, retries, attempt, received).delays, attempt)
    decreases retries - attempt
  {
    PlainDelayTurn(net(attempt), consumer, retries, attempt, received);
    match TakeTurn(net(attempt), consumer, retries, attempt, received)
    case Over(_) =>
    case Again(_, now, _, _) =>
      PlainDelays(net, consumer, retries, attempt + 1, now);
      BackoffsFrom(attempt, ExportFrom(net, consumer, retries, attempt + 1, now).delays);
  }

  /** Without server advice the total wait depends on the number of retries alone. */
  lemma TotalWait(net: Network, consumer: Consumer, retries: nat)
    requires retries <= 64 && NoAdvice(net)
    ensures var n := |ExportRun(net, consumer, retries).delays|;
            Sum(ExportRun(net, consumer, retries).delays) == if n <= 6 then Pow2(n) - 1 else 63 + 60 * (n - 6)
  {
    PlainDelays(net, consumer, retries, 0, []);
    var d := ExportRun(net, consumer, retries).delays;
    assert d == Backoffs(|d|);
    BackoffTotal(|d|);
  }

  //------------------------------------------------------------------ the two loops share their policy

  function Everything(): Consumer {
    _ => Wants
  }

  lemma {:induction false} EverythingIsTaken(received: seq<string>, chunks: seq<string>)
    ensures Answer(Everything(), received, chunks) == Wants
    decreases |chunks|
  {
    if chunks == [] {
    } else {
      EverythingIsTaken(received + [chunks[0]], chunks[1..]);
    }
  }

  /** A success response that breaks off after some bytes, with an error that is otherwise retried. */
  predicate BreaksOff(x: Exchange) {
    && x.Succeeds() && Flatten(x.chunks) != ""
    && x.failure.Some? && IsRetryableTransportError(x.failure.value)
  }

  /** Attempt `k` is made and fails before any success byte, and another one follows. */
  predicate Passes(net: Network, retries: nat, k: nat)
    requires k <= retries <= 64
  {
    !net(k).interruptedBefore && Judge(net(k).exchange, k, retries, 0).Retry? && !net(k).interruptedWaiting
  }

  /** With budget left, a response breaks off at attempt `k`, or later when the attempts up to there pass. */
  predicate Breaks(net: Network, retries: nat, k: nat)
    requires k <= retries <= 64
    decreases retries - k
  {
    && k < retries && !net(k).interruptedBefore
    && (BreaksOff(net(k).exchange) || (Passes(net, retries, k) && Breaks(net, retries, k + 1)))
  }

  /** Same requests, same sleeps, same ending, and the same body when there is one. */
  predicate SameCourse(r: Run, q: PlainRun) {
    && r.requests == q.requests && r.delays == q.delays
    && (if r.finish.TransportFailed? && q.finish.TransportFailed? then r.finish.error == q.finish.error
        else r.finish == q.finish)
    && (q.finish.Completed? ==> Flatten(r.received) == q.body)
  }

  /** One attempt: both loops end alike, or only the plain one goes on, or both go on alike. */
  lemma SharedTurn(net: Network, retries: nat, attempt: nat, received: seq<string>)
    requires attempt <= retries <= 64 && Flatten(received) == ""
    ensures var t, q := TakeTurn(net(attempt), Everything(), retries, attempt, received), PlainFrom(net, retries, attempt);
            match t
            case Over(run) => SameCourse(run, q) <==> !Breaks(net, retries, attempt)
            case Again(delay, now, _, _) =>
              && Flatten(now) == ""
              && q == PlainPrepend([delay], PlainFrom(net, retries, attempt + 1))
              && (Breaks(net, retries, attempt) <==> Breaks(net, retries, attempt + 1))
  {
    var chunks := Reaching(net(attempt).exchange);
    EverythingIsTaken(received, chunks);
    OfferedBytes(Everything(), received, chunks);
    assert "" + Flatten(chunks) == Flatten(chunks);
  }

  lemma SameCourseLater(r: Run, q: PlainRun, delay: nat, start: string, reset: nat)
    ensures SameCourse(Prepend([delay], [start], reset, r), PlainPrepend([delay], q)) <==> SameCourse(r, q)
  {
    assert ([delay] + r.delays)[1..] == r.delays && ([delay] + q.delays)[1..] == q.delays;
  }

  lemma {:induction false} SharedPolicyFrom(net: Network, retries: nat, attempt: nat, received: seq<string>)
    requires attempt <= retries <= 64 && Flatten(received) == ""
    ensures SameCourse(ExportFrom(net, Everything(), retries, attempt, received), PlainFrom(net, retries, attempt))
            <==> !Breaks(net, retries, attempt)
    decreases retries - attempt
  {
    SharedTurn(net, retries, attempt, received);
    match TakeTurn(net(attempt), Everything(), retries, attempt, received)
    case Over(_) =>
    case Again(delay, now, start, reset) =>
      SharedPolicyFrom(net, retries, attempt + 1, now);
      SameCourseLater(ExportFrom(net, Everything(), retries, attempt + 1, now), PlainFrom(net, retries, attempt + 1),
                      delay, start, reset);
  }

  /**
   * Facing the same network, the two loops send the same requests, sleep alike and end alike - except
   * exactly when the network lets an attempt that may still be retried break off after success bytes.
   */
  lemma SharedPolicy(net: Network, retries: nat)
    requires retries <= 64
    ensures SameCourse(ExportRun(net, Everything(), retries), PlainFrom(net, retries, 0)) <==> !Breaks(net, retries, 0)
  {
    SharedPolicyFrom(net, retries, 0, []);
  }

  /** In particular on every network where no success byte comes before a retryable transport failure. */
  lemma SharedWithoutBreaks(net: Network, retries: nat)
    requires retries <= 64 && forall k :: 0 <= k < retries ==> !BreaksOff(net(k).exchange)
    ensures SameCourse(ExportRun(net, Everything(), retries), PlainFrom(net, retries, 0))
  {
    NowhereBreaks(net, retries, 0);
    SharedPolicy(net, retries);
  }

  lemma {:induction false} NowhereBreaks(net: Network, retries: nat, k: nat)
    requires k <= retries <= 64 && forall i :: 0 <= i < retries ==> !BreaksOff(net(i).exchange)
    ensures !Breaks(net, retries, k)
    decreases retries - k
  {
    if k == retries {
    } else {
      NowhereBreaks(net, retries, k + 1);
    }
  }

  /** One byte arrives and the connection drops; a second request would answer in full. */
  function DropsOnce(): Network {
    k => Attempt(false, Answered(200, None, ["a"], if k == 0 then Some(OtherTransportError(0)) else None), false)
  }

  /** There the plain request succeeds at its second attempt, and the export must give up at its first. */
  lemma LoopsDiffer()
    ensures Breaks(DropsOnce(), 1, 0)
    ensures PlainFrom(DropsOnce(), 1, 0) == PlainRun(Completed, 2, [1], "a")
    ensures ExportRun(DropsOnce(), Everything(), 1) ==
            Run(TransportFailed(1, OtherTransportError(0)), 1, [], ["a"], [""], 1, "")
  {
    assert ["a"][1..] == [] && Flatten(["a"]) == "a";
    EverythingIsTaken([], ["a"]);
    assert Offer(Everything(), [], ["a"]) == ["a"];
  }
}
