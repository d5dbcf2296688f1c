/** When a failed request is sent again, and after how many seconds. */
module RetryPolicy {
  import opened Common
  import opened Text

  datatype TransportError =
    | SSLLoadingCerts
    | SSLServerVerification
    | SSLServerHostnameVerification
    | OtherTransportError(code: int)

  predicate IsRetryableTransportError(error: TransportError) {
    error.OtherTransportError?
  }

  /** One request: it dies before the status line, or answers with a body that may break off. */
  datatype Exchange =
    | Unanswered(error: TransportError)
    | Answered(status: int, retryAfter: Option<string>, chunks: seq<string>, failure: Option<TransportError>)
  {
    function TransportFailure(): Option<TransportError> {
      match this case Unanswered(e) => Some(e) case Answered(_, _, _, failure) => failure
    }

    predicate Succeeds() {
      Answered? && 200 <= status < 300
    }
  }

  /** What the outside world does to one attempt. */
  datatype Attempt = Attempt(interruptedBefore: bool, exchange: Exchange, interruptedWaiting: bool)

  /** An adversary: one reaction for every attempt that might be made. */
  type Network = nat -> Attempt

  //------------------------------------------------------------------ delays

  function Pow2(n: nat): (p: nat)
    ensures p >= 1
  {
    if n == 0 then 1 else 2 * Pow2(n - 1)
  }

  /** Exponential backoff capped at a minute. The shift is defined for attempts up to 63. */
  function Backoff(attempt: nat): (seconds: nat)
    requires attempt <= 63
    ensures 1 <= seconds <= 60
  {
    if Pow2(attempt) < 60 then Pow2(attempt) else 60
  }

  function RateLimitRetryDelaySeconds(retryAfter: Option<string>, attempt: nat): (seconds: nat)
    requires attempt <= 63
    ensures 1 <= seconds <= 60
  {
    var advised := match retryAfter case Some(text) => Stoll(text) case None => None;
    match advised
    case Some(s) => if s < 0 then 1 else if s > 59 then 60 else s + 1
    case None => Backoff(attempt)
  }

  /** A Retry-After given in seconds waits one second longer, at most a minute; one that overflows is ignored. */
  lemma AdvisedDelay(seconds: nat, attempt: nat)
    requires attempt <= 63
    ensures RateLimitRetryDelaySeconds(Some(Decimal(seconds)), attempt) ==
            if seconds >= INT64_LIMIT then Backoff(attempt) else if seconds > 59 then 60 else seconds + 1
  {
    StollOfDecimal(seconds);
  }

  function Sum(delays: seq<nat>): nat {
    if delays == [] then 0 else Sum(delays[..|delays| - 1]) + delays[|delays| - 1]
  }

  lemma {:induction false} SumBounds(delays: seq<nat>)
    requires forall i :: 0 <= i < |delays| ==> 1 <= delays[i] <= 60
    ensures |delays| <= Sum(delays) <= 60 * |delays|
  {
    if delays == [] {
    } else {
      SumBounds(delays[..|delays| - 1]);
    }
  }

  function Backoffs(n: nat): (delays: seq<nat>)
    requires n <= 64
    ensures |delays| == n
  {
    seq(n, i requires 0 <= i < n => Backoff(i))
  }

  lemma SmallPowers()
    ensures Pow2(0) == 1 && Pow2(1) == 2 && Pow2(2) == 4 && Pow2(3) == 8 && Pow2(4) == 16 && Pow2(5) == 32
    ensures Pow2(6) == 64
  {
  }

  lemma {:induction false} Pow2Grows(m: nat, n: nat)
    requires m <= n
    ensures Pow2(m) <= Pow2(n)
  {
    if m < n { Pow2Grows(m, n - 1); }
  }

  /** The whole waiting time of `n` plain backoffs. */
  lemma {:induction false} BackoffTotal(n: nat)
    requires n <= 64
    ensures Sum(Backoffs(n)) == if n <= 6 then Pow2(n) - 1 else 63 + 60 * (n - 6)
  {
    if n > 0 {
      assert Backoffs(n)[..n - 1] == Backoffs(n - 1);
      BackoffTotal(n - 1);
      SmallPowers();
      if n > 6 { Pow2Grows(6, n - 1); }
    }
  }

  //------------------------------------------------------------------ decisions

  /** How a request loop ends. */
  datatype Finish =
    | Completed
    | StoppedByConsumer
    | ConsumerThrew
    | Interrupted
    | TransportFailed(bytes: nat, error: TransportError)
    | HttpFailed(status: int)

  datatype Verdict = Retry(delay: nat) | End(finish: Finish)

  /**
   * The common policy. `bytes` counts the success bytes that already reached a parser; a loop that keeps
   * the body to itself passes 0.
   */
  function Judge(x: Exchange, attempt: nat, retries: nat, bytes: nat): (v: Verdict)
    requires attempt <= retries <= 64
    ensures v.Retry? ==> attempt < retries && 1 <= v.delay <= 60
  {
    match x.TransportFailure()
    case Some(error) =>
      if bytes > 0 || attempt >= retries || !IsRetryableTransportError(error) then End(TransportFailed(bytes, error))
      else Retry(Backoff(attempt))
    case None =>
      if x.status == 429 && attempt < retries then Retry(RateLimitRetryDelaySeconds(x.retryAfter, attempt))
      else if x.status >= 500 && attempt < retries then Retry(Backoff(attempt))
      else if x.Succeeds() then End(Completed)
      else End(HttpFailed(x.status))
  }
}
