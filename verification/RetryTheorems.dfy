/** Which requests the two loops send, how long they wait, and how they end - read off the network alone. */
module RetryTheorems {
  import opened Common
  import opened ExportSearch
  import opened RetryPolicy
  import opened Text

  //------------------------------------------------------------------ one exchange

  /**
   * The exchange calls for another attempt: it dropped before any of `bytes` success bytes was handed over and
   * not for a certificate, or it answered that the server is busy or failing.
   */
  predicate CallsForRetry(x: Exchange, bytes: nat) {
    match x
    case Unanswered(OtherTransportError(_)) => bytes == 0
    case Answered(_, _, _, Some(OtherTransportError(_))) => bytes == 0
    case Answered(status, _, _, None) => status == 429 || status >= 500
    case _ => false
  }

  /** The wait before attempt `k + 1`. */
  predicate IsDelay(x: Exchange, k: nat, delay: nat)
    requires k <= 63
  {
    match x
    case Answered(429, Some(text), _, None) =>
      (match Stoll(text)
       case Some(seconds) => delay == if seconds < 0 then 1 else if seconds > 59 then 60 else seconds + 1
       case None => delay == if Pow2(k) < 60 then Pow2(k) else 60)
    case _ => delay == if Pow2(k) < 60 then Pow2(k) else 60
  }

  /** The waits after attempt `from` and the ones following it. */
  predicate AreDelays(net: Network, from: nat, delays: seq<nat>) {
    from + |delays| <= 64 && forall j :: 0 <= j < |delays| ==> IsDelay(net(from + j).exchange, from + j, delays[j])
  }

  lemma DelaysLater(net: Network, from: nat, delay: nat, delays: seq<nat>)
    requires from <= 63 && IsDelay(net(from).exchange, from, delay) && AreDelays(net, from + 1, delays)
    ensures AreDelays(net, from, [delay] + delays)
  {
    var d := [delay] + delays;
    forall j | 0 <= j < |d| ensures IsDelay(net(from + j).exchange, from + j, d[j]) {
      if j > 0 { assert d[j] == delays[j - 1] && IsDelay(net(from + 1 + (j - 1)).exchange, from + 1 + (j - 1), delays[j - 1]); }
    }
  }

  /** How a loop that may not try again ends. */
  predicate EndsAs(x: Exchange, bytes: nat, finish: Finish) {
    match x
    case Unanswered(e) => finish == TransportFailed(bytes, e)
    case Answered(_, _, _, Some(e)) => finish == TransportFailed(bytes, e)
    case Answered(status, _, _, None) => finish == if 200 <= status <= 299 then Completed else HttpFailed(status)
  }

  lemma JudgeExactly(x: Exchange, k: nat, retries: nat, bytes: nat)
    requires k <= retries <= 64
    ensures match Judge(x, k, retries, bytes)
            case Retry(delay) => k < retries && CallsForRetry(x, bytes) && IsDelay(x, k, delay)
            case End(finish) => !(k < retries && CallsForRetry(x, bytes)) && EndsAs(x, bytes, finish)
  {
  }

  /** A numeric header is waited out with one second more, at most a minute; one beyond 64 bits is not read. */
  lemma NumericAdvice(seconds: nat, chunks: seq<string>, k: nat, delay: nat)
    requires k <= 63 && IsDelay(Answered(429, Some(Decimal(seconds)), chunks, None), k, delay)
    ensures seconds <= 59 ==> delay == seconds + 1
    ensures 59 < seconds < INT64_LIMIT ==> delay == 60
    ensures seconds >= INT64_LIMIT ==> delay == if Pow2(k) < 60 then Pow2(k) else 60
  {
    StollOfDecimal(seconds);
  }

  //------------------------------------------------------------------ the streaming export

  /** The chunks handed over by the attempts before `k`, if all of them were followed by another. */
  function Handed(net: Network, k: nat): seq<string> {
    if k == 0 then [] else Handed(net, k - 1) + Reaching(net(k - 1).exchange)
  }

  /** Attempt `k` is made, and its outcome asks for another one within the budget. */
  predicate WantsAnother(net: Network, consumer: Consumer, retries: nat, k: nat) {
    var x := net(k).exchange;
    && k < retries && !net(k).interruptedBefore
    && CallsForRetry(x, |Flatten(Reaching(x))|)
    && Answer(consumer, Handed(net, k), Reaching(x)) == Wants
  }

  /** It is followed by attempt `k + 1`: the wait is not interrupted either. */
  predicate Followed(net: Network, consumer: Consumer, retries: nat, k: nat) {
    WantsAnother(net, consumer, retries, k) && !net(k).interruptedWaiting
  }

  /** Attempt `k` begins. */
  predicate Begins(net: Network, consumer: Consumer, retries: nat, k: nat) {
    forall j :: 0 <= j < k ==> Followed(net, consumer, retries, j)
  }

  lemma {:induction false} OfferWanted(consumer: Consumer, received: seq<string>, chunks: seq<string>)
    requires Answer(consumer, received, chunks) == Wants
    ensures Offer(consumer, received, chunks) == received + chunks
    decreases |chunks|
  {
    if chunks == [] {
      assert received + [] == received;
    } else {
      OfferWanted(consumer, received + [chunks[0]], chunks[1..]);
      assert received + [chunks[0]] + chunks[1..] == received + chunks;
    }
  }

  /** The kept part of an error response: its first 4096 bytes. */
  predicate IsExcerpt(x: Exchange, text: string) {
    x.Answered? && text <= Flatten(x.chunks) && |text| == if |Flatten(x.chunks)| < 4096 then |Flatten(x.chunks)| else 4096
  }

  /** How attempt `k`, begun with the chunks handed over so far, goes. */
  predicate TurnAs(net: Network, consumer: Consumer, retries: nat, k: nat, t: Turn)
    requires k <= retries <= 64
  {
    var x := net(k).exchange;
    match t
    case Again(delay, now, _, _) =>
      && Followed(net, consumer, retries, k) && now == Handed(net, k + 1) && IsDelay(x, k, delay)
    case Over(run) =>
      && !Followed(net, consumer, retries, k)
      && run.requests == (if net(k).interruptedBefore then k else k + 1)
      && (if WantsAnother(net, consumer, retries, k) then
            |run.delays| == 1 && IsDelay(x, k, run.delays[0]) && run.finish == Interrupted
          else
            run.delays == [] && FinishAs(net, consumer, k, run.finish))
      && (run.finish.HttpFailed? ==> IsExcerpt(x, run.errorBody))
  }

  /** How the loop ends at attempt `k` when nothing calls for another one. */
  predicate FinishAs(net: Network, consumer: Consumer, k: nat, finish: Finish) {
    var x := net(k).exchange;
    if net(k).interruptedBefore then finish == Interrupted
    else
      match Answer(consumer, Handed(net, k), Reaching(x))
      case Refuses => finish == StoppedByConsumer
      case Throws => finish == ConsumerThrew
      case Wants => EndsAs(x, |Flatten(Reaching(x))|, finish)
  }

  /** The consumer took everything and the exchange calls for another attempt. */
  lemma RetriedTurn(net: Network, consumer: Consumer, retries: nat, k: nat, delay: nat)
    requires k <= retries <= 64 && WantsAnother(net, consumer, retries, k)
    requires var x := net(k).exchange; Judge(x, k, retries, |Flatten(Reaching(x))|) == Retry(delay) && IsDelay(x, k, delay)
    requires Offer(consumer, Handed(net, k), Reaching(net(k).exchange)) == Handed(net, k + 1)
    ensures TurnAs(net, consumer, retries, k, TakeTurn(net(k), consumer, retries, k, Handed(net, k)))
  {
  }

  /** It took everything, and the exchange is the end. */
  lemma EndedTurn(net: Network, consumer: Consumer, retries: nat, k: nat, finish: Finish)
    requires k <= retries <= 64 && !net(k).interruptedBefore && !WantsAnother(net, consumer, retries, k)
    requires Answer(consumer, Handed(net, k), Reaching(net(k).exchange)) == Wants
    requires var x := net(k).exchange; var bytes := |Flatten(Reaching(x))|;
             Judge(x, k, retries, bytes) == End(finish) && EndsAs(x, bytes, finish)
    ensures TurnAs(net, consumer, retries, k, TakeTurn(net(k), consumer, retries, k, Handed(net, k)))
  {
  }

  lemma WantedTurn(net: Network, consumer: Consumer, retries: nat, k: nat)
    requires k <= retries <= 64 && !net(k).interruptedBefore
    requires Answer(consumer, Handed(net, k), Reaching(net(k).exchange)) == Wants
    ensures TurnAs(net, consumer, retries, k, TakeTurn(net(k), consumer, retries, k, Handed(net, k)))
  {
    var x := net(k).exchange;
    JudgeExactly(x, k, retries, |Flatten(Reaching(x))|);
    OfferWanted(consumer, Handed(net, k), Reaching(x));
    match Judge(x, k, retries, |Flatten(Reaching(x))|)
    case Retry(delay) => RetriedTurn(net, consumer, retries, k, delay);
    case End(finish) => EndedTurn(net, consumer, retries, k, finish);
  }

  lemma TurnExactly(net: Network, consumer: Consumer, retries: nat, k: nat)
    requires k <= retries <= 64
    ensures TurnAs(net, consumer, retries, k, TakeTurn(net(k), consumer, retries, k, Handed(net, k)))
  {
    if !net(k).interruptedBefore && Answer(consumer, Handed(net, k), Reaching(net(k).exchange)) == Wants {
      WantedTurn(net, consumer, retries, k);
    }
  }

  /** The run from attempt `from` on, described by its number `last` of the last attempt begun. */
  predicate RunAs(net: Network, consumer: Consumer, retries: nat, from: nat, last: nat, r: Run)
    requires retries <= 64
  {
    && from <= last <= retries
    && (forall j :: from <= j < last ==> Followed(net, consumer, retries, j))
    && !Followed(net, consumer, retries, last)
    && r.requests == (if net(last).interruptedBefore then last else last + 1)
    && |r.delays| == last - from + (if WantsAnother(net, consumer, retries, last) then 1 else 0)
    && AreDelays(net, from, r.delays)
    && (if WantsAnother(net, consumer, retries, last) then r.finish == Interrupted
        else FinishAs(net, consumer, last, r.finish))
    && (r.finish.HttpFailed? ==> IsExcerpt(net(last).exchange, r.errorBody))
  }

  lemma RunLater(net: Network, consumer: Consumer, retries: nat, from: nat, last: nat, delay: nat, start: string,
                 reset: nat, r: Run)
    requires retries <= 64 && RunAs(net, consumer, retries, from + 1, last, r)
    requires Followed(net, consumer, retries, from) && IsDelay(net(from).exchange, from, delay)
    ensures RunAs(net, consumer, retries, from, last, Prepend([delay], [start], reset, r))
  {
    DelaysLater(net, from, delay, r.delays);
  }

  lemma {:induction false} RunFromExactly(net: Network, consumer: Consumer, retries: nat, from: nat) returns (last: nat)
    requires from <= retries <= 64
    ensures RunAs(net, consumer, retries, from, last, ExportFrom(net, consumer, retries, from, Handed(net, from)))
    decreases retries - from
  {
    TurnExactly(net, consumer, retries, from);
    match TakeTurn(net(from), consumer, retries, from, Handed(net, from))
    case Over(_) => last := from;
    case Again(delay, now, start, reset) =>
      last := RunFromExactly(net, consumer, retries, from + 1);
      RunLater(net, consumer, retries, from, last, delay, start, reset,
               ExportFrom(net, consumer, retries, from + 1, Handed(net, from + 1)));
  }

  /** The attempts that begin are those up to the last. */
  lemma BeginsUpTo(net: Network, consumer: Consumer, retries: nat, last: nat, k: nat)
    requires forall j :: 0 <= j < last ==> Followed(net, consumer, retries, j)
    requires !Followed(net, consumer, retries, last)
    ensures Begins(net, consumer, retries, k) <==> k <= last
  {
    if k > last { assert !Followed(net, consumer, retries, last); }
  }

  lemma RunExactly(net: Network, consumer: Consumer, retries: nat) returns (last: nat)
    requires retries <= 64
    ensures RunAs(net, consumer, retries, 0, last, ExportRun(net, consumer, retries))
  {
    last := RunFromExactly(net, consumer, retries, 0);
  }

  /**
   * Request `k` is sent if and only if every attempt before it called for another one, within the budget and
   * without an interrupt, and none comes before it either.
   */
  lemma ExportRequestsExactly(net: Network, consumer: Consumer, retries: nat, k: nat)
    requires retries <= 64
    ensures k < ExportRun(net, consumer, retries).requests <==>
            Begins(net, consumer, retries, k) && !net(k).interruptedBefore
  {
    var last := RunExactly(net, consumer, retries);
    BeginsUpTo(net, consumer, retries, last, k);
    assert k < last ==> Followed(net, consumer, retries, k);
  }

  /** The waits: one after each attempt that calls for another, and each of them the advised or the backed-off one. */
  lemma ExportDelaysExactly(net: Network, consumer: Consumer, retries: nat, k: nat)
    requires retries <= 64
    ensures var d := ExportRun(net, consumer, retries).delays;
            && (k < |d| <==> Begins(net, consumer, retries, k) && WantsAnother(net, consumer, retries, k))
            && (k < |d| ==> k <= 63 && IsDelay(net(k).exchange, k, d[k]))
  {
    var last := RunExactly(net, consumer, retries);
    BeginsUpTo(net, consumer, retries, last, k);
    assert k < last ==> Followed(net, consumer, retries, k);
  }

  /** The end, at the last attempt begun: by an interrupt, by the consumer, or as the exchange says. */
  lemma ExportEndsExactly(net: Network, consumer: Consumer, retries: nat, k: nat)
    requires retries <= 64 && Begins(net, consumer, retries, k) && !Followed(net, consumer, retries, k)
    ensures var r := ExportRun(net, consumer, retries);
            && (if WantsAnother(net, consumer, retries, k) then r.finish == Interrupted
                else FinishAs(net, consumer, k, r.finish))
            && (r.finish.HttpFailed? ==> IsExcerpt(net(k).exchange, r.errorBody))
  {
    var last := RunExactly(net, consumer, retries);
    BeginsUpTo(net, consumer, retries, last, k);
    assert k < last ==> Followed(net, consumer, retries, k);
  }

  /** What the first answer decides, for a consumer that wants everything and with nobody interrupting. */
  lemma FirstStatusDecides(net: Network, retries: nat, status: int, retryAfter: Option<string>, chunks: seq<string>)
    requires retries <= 64 && net(0) == Attempt(false, Answered(status, retryAfter, chunks, None), false)
    ensures var r := ExportRun(net, Everything(), retries);
            if 200 <= status <= 299 then r.requests == 1 && r.finish == Completed
            else if (status == 429 || status >= 500) && retries > 0 then
              r.requests > 1 <==> !net(1).interruptedBefore
            else r.requests == 1 && r.finish == HttpFailed(status)
  {
    EverythingIsTaken([], Reaching(net(0).exchange));
    ExportRequestsExactly(net, Everything(), retries, 0);
    ExportRequestsExactly(net, Everything(), retries, 1);
    assert Handed(net, 0) == [];
    if Followed(net, Everything(), retries, 0) {
      assert Begins(net, Everything(), retries, 1);
    } else {
      assert !Begins(net, Everything(), retries, 1);
      ExportEndsExactly(net, Everything(), retries, 0);
    }
  }

  //------------------------------------------------------------------ the plain request

  predicate PlainWantsAnother(net: Network, retries: nat, k: nat) {
    k < retries && !net(k).interruptedBefore && CallsForRetry(net(k).exchange, 0)
  }

  predicate PlainFollowed(net: Network, retries: nat, k: nat) {
    PlainWantsAnother(net, retries, k) && !net(k).interruptedWaiting
  }

  predicate PlainBegins(net: Network, retries: nat, k: nat) {
    forall j :: 0 <= j < k ==> PlainFollowed(net, retries, j)
  }

  predicate PlainFinishAs(net: Network, k: nat, finish: Finish) {
    if net(k).interruptedBefore then finish == Interrupted else EndsAs(net(k).exchange, 0, finish)
  }

  predicate PlainRunAs(net: Network, retries: nat, from: nat, last: nat, r: PlainRun)
    requires retries <= 64
  {
    && from <= last <= retries
    && (forall j :: from <= j < last ==> PlainFollowed(net, retries, j))
    && !PlainFollowed(net, retries, last)
    && r.requests == (if net(last).interruptedBefore then last else last + 1)
    && |r.delays| == last - from + (if PlainWantsAnother(net, retries, last) then 1 else 0)
    && AreDelays(net, from, r.delays)
    && (if PlainWantsAnother(net, retries, last) then r.finish == Interrupted
        else PlainFinishAs(net, last, r.finish))
    && r.body == (if r.finish.Completed? then Flatten(Reaching(net(last).exchange)) else "")
  }

  lemma PlainTurnExactly(net: Network, retries: nat, k: nat)
    requires k <= retries <= 64
    ensures match TakePlainTurn(net(k), retries, k)
            case PlainAgain(delay) => PlainFollowed(net, retries, k) && IsDelay(net(k).exchange, k, delay)
            case PlainOver(run) => PlainRunAs(net, retries, k, k, run)
  {
    JudgeExactly(net(k).exchange, k, retries, 0);
  }

  lemma PlainRunLater(net: Network, retries: nat, from: nat, last: nat, delay: nat, r: PlainRun)
    requires retries <= 64 && PlainRunAs(net, retries, from + 1, last, r)
    requires PlainFollowed(net, retries, from) && IsDelay(net(from).exchange, from, delay)
    ensures PlainRunAs(net, retries, from, last, PlainPrepend([delay], r))
  {
    DelaysLater(net, from, delay, r.delays);
  }

  lemma {:induction false} PlainRunExactly(net: Network, retries: nat, from: nat) returns (last: nat)
    requires from <= retries <= 64
    ensures PlainRunAs(net, retries, from, last, PlainFrom(net, retries, from))
    decreases retries - from
  {
    PlainTurnExactly(net, retries, from);
    match TakePlainTurn(net(from), retries, from)
    case PlainOver(_) => last := from;
    case PlainAgain(delay) =>
      last := PlainRunExactly(net, retries, from + 1);
      PlainRunLater(net, retries, from, last, delay, PlainFrom(net, retries, from + 1));
  }

  lemma PlainBeginsUpTo(net: Network, retries: nat, last: nat, k: nat)
    requires forall j :: 0 <= j < last ==> PlainFollowed(net, retries, j)
    requires !PlainFollowed(net, retries, last)
    ensures PlainBegins(net, retries, k) <==> k <= last
  {
    if k > last { assert !PlainFollowed(net, retries, last); }
  }

  lemma PlainRequestsExactly(net: Network, retries: nat, k: nat)
    requires retries <= 64
    ensures k < PlainFrom(net, retries, 0).requests <==> PlainBegins(net, retries, k) && !net(k).interruptedBefore
  {
    var last := PlainRunExactly(net, retries, 0);
    PlainBeginsUpTo(net, retries, last, k);
    assert k < last ==> PlainFollowed(net, retries, k);
  }

  lemma PlainDelaysExactly(net: Network, retries: nat, k: nat)
    requires retries <= 64
    ensures var d := PlainFrom(net, retries, 0).delays;
            && (k < |d| <==> PlainBegins(net, retries, k) && PlainWantsAnother(net, retries, k))
            && (k < |d| ==> k <= 63 && IsDelay(net(k).exchange, k, d[k]))
  {
    var last := PlainRunExactly(net, retries, 0);
    PlainBeginsUpTo(net, retries, last, k);
    assert k < last ==> PlainFollowed(net, retries, k);
  }

  lemma PlainEndsExactly(net: Network, retries: nat, k: nat)
    requires retries <= 64 && PlainBegins(net, retries, k) && !PlainFollowed(net, retries, k)
    ensures var r := PlainFrom(net, retries, 0);
            && (if PlainWantsAnother(net, retries, k) then r.finish == Interrupted else PlainFinishAs(net, k, r.finish))
            && r.body == (if r.finish.Completed? then Flatten(Reaching(net(k).exchange)) else "")
  {
    var last := PlainRunExactly(net, retries, 0);
    PlainBeginsUpTo(net, retries, last, k);
    assert k < last ==> PlainFollowed(net, retries, k);
  }
}
