/** The parts put together: request loop, producer, scanning thread, and the two platforms side by side. */
module Pipeline {
  import opened Common
  import opened ExportRecords
  import opened ExportSearch
  import opened Lines
  import opened Reference
  import opened ProducerRefinement
  import opened RetryPolicy
  import opened ScanInvariant
  import opened ScanMachine
  import opened ScanTheorems

  //------------------------------------------------------------------ what a run gets from the network

  predicate FromNetwork(a: Action) {
    a.Chunk? || a.RequestEnds? || a.RequestFails?
  }

  /** The network's part in a run. */
  function NetworkActs(run: seq<Action>): seq<Action> {
    if run == [] then []
    else (if FromNetwork(run[0]) then [run[0]] else []) + NetworkActs(run[1..])
  }

  function Bytes(acts: seq<Action>): string {
    if acts == [] then ""
    else (if acts[0].Chunk? then acts[0].data else "") + Bytes(acts[1..])
  }

  lemma {:induction false} BytesAppend(a: seq<Action>, b: seq<Action>)
    ensures Bytes(a + b) == Bytes(a) + Bytes(b)
  {
    if a == [] {
      assert a + b == b;
    } else {
      assert (a + b)[1..] == a[1..] + b;
      BytesAppend(a[1..], b);
    }
  }

  lemma BytesOfOne(a: Action, acts: seq<Action>)
    ensures Bytes([a] + acts) == (if a.Chunk? then a.data else "") + Bytes(acts)
  {
    assert ([a] + acts)[1..] == acts;
  }

  /** The chunks handed to the callback, as acts. */
  function ChunkActs(chunks: seq<string>): (acts: seq<Action>)
    ensures |acts| == |chunks|
  {
    seq(|chunks|, i requires 0 <= i < |chunks| => Chunk(chunks[i]))
  }

  lemma {:induction false} BytesOfChunks(chunks: seq<string>)
    ensures Bytes(ChunkActs(chunks)) == Flatten(chunks)
  {
    if chunks == [] {
    } else {
      BytesOfChunks(chunks[1..]);
      assert ChunkActs(chunks)[1..] == ChunkActs(chunks[1..]);
    }
  }

  /** How the end of the request loop reaches the producer; when its own callback ended the loop it knows already. */
  function EndActs(finish: Finish): seq<Action> {
    match finish
    case Completed => [RequestEnds]
    case StoppedByConsumer => []
    case ConsumerThrew => []
    case _ => [RequestFails(finish)]
  }

  /** All that a run of the request loop does to the producer. */
  function ActsOf(r: Run): seq<Action> {
    ChunkActs(r.received) + EndActs(r.finish)
  }

  predicate SameBytes(s: State, t: State) {
    t.stream == s.stream && t.p.ended == s.p.ended
  }

  lemma ParseLineBytes(s: State, line: string, outcome: LineOutcome, more: string, last: bool)
    ensures SameBytes(s, ParseLine(s, line, outcome, more, last))
  {
  }

  lemma SplitBytes(cfg: Config, s: State)
    ensures SameBytes(s, Split(cfg, s))
  {
    if !s.p.limitReached {
      match CutLine(s.p.rest)
      case NoLine =>
      case Cut(line, more) => ParseLineBytes(s, line, cfg.parser(line), more, false);
    }
  }

  lemma FlushBytes(cfg: Config, s: State)
    ensures SameBytes(s, Flush(cfg, s))
  {
    ParseLineBytes(s, s.p.rest, cfg.parser(s.p.rest), "", true);
  }

  lemma OtherProducerBytes(cfg: Config, s: State)
    requires ProducerEnabled(s) && s.p.at != Splitting && s.p.at != Flushing
    ensures SameBytes(s, ProducerNext(cfg, s))
  {
  }

  lemma ProducerBytes(cfg: Config, s: State)
    requires ProducerEnabled(s)
    ensures SameBytes(s, ProducerNext(cfg, s))
  {
    match s.p.at
    case Splitting => SplitBytes(cfg, s);
    case Flushing => FlushBytes(cfg, s);
    case _ => OtherProducerBytes(cfg, s);
  }

  /** What one step adds to the stream, and when the request has ended. */
  lemma StepBytes(cfg: Config, s: State, a: Action)
    requires Enabled(s, a)
    ensures Next(cfg, s, a).stream == s.stream + if a.Chunk? then a.data else ""
    ensures Next(cfg, s, a).p.ended <==> s.p.ended || a == RequestEnds
  {
    match a
    case ProducerStep => ProducerBytes(cfg, s);
    case ScannerStep => ScannerKeepsRows(cfg, s);
    case _ => OutsideBytes(s, a);
  }

  lemma OutsideBytes(s: State, a: Action)
    ensures Outside(s, a).stream == s.stream + if a.Chunk? then a.data else ""
    ensures Outside(s, a).p.ended <==> s.p.ended || a == RequestEnds
  {
  }

  /** What one act more in front adds to the network acts and their bytes. */
  lemma ActsOfStep(a: Action, run: seq<Action>, stream: string)
    ensures var acts, now := NetworkActs([a] + run), stream + if a.Chunk? then a.data else "";
            && acts == (if FromNetwork(a) then [a] else []) + NetworkActs(run)
            && (RequestEnds in acts <==> a == RequestEnds || RequestEnds in NetworkActs(run))
            && stream + Bytes(acts) == now + Bytes(NetworkActs(run))
  {
    assert ([a] + run)[1..] == run;
    BytesOfOne(a, NetworkActs(run));
    assert [] + NetworkActs(run) == NetworkActs(run);
  }

  /** The stream is what the network sent, and the request ended if and only if the network said so. */
  lemma {:induction false} RunBytes(cfg: Config, s: State, run: seq<Action>, t: State)
    requires Leads(cfg, s, run, t)
    ensures t.stream == s.stream + Bytes(NetworkActs(run))
    ensures t.p.ended <==> s.p.ended || RequestEnds in NetworkActs(run)
    decreases |run|
  {
    if run == [] {
    } else {
      var a, rest := run[0], NetworkActs(run[1..]);
      StepBytes(cfg, s, a);
      RunBytes(cfg, Next(cfg, s, a), run[1..], t);
      ActsOfStep(a, run[1..], s.stream);
      assert run == [a] + run[1..];
    }
  }

  //------------------------------------------------------------------ request loop and scan

  /** The network acts of a run are those of `r`, as far as the run has got. */
  predicate Follows(run: seq<Action>, r: Run) {
    NetworkActs(run) <= ActsOf(r)
  }

  /** The scan has received what `r` handed over, or the first part of it, and has seen at most its completion. */
  predicate FedBy(s: State, r: Run) {
    && s.stream <= Flatten(r.received)
    && (s.p.ended ==> r.finish.Completed? && s.stream == Flatten(r.received))
  }

  lemma EndActsCarryNothing(r: Run)
    ensures Bytes(ActsOf(r)) == Flatten(r.received)
    ensures forall i :: 0 <= i < |ActsOf(r)| && ActsOf(r)[i] == RequestEnds ==> i == |r.received| && r.finish.Completed?
  {
    var ends := EndActs(r.finish);
    BytesAppend(ChunkActs(r.received), ends);
    BytesOfChunks(r.received);
    if ends != [] { assert ends[1..] == []; }
  }

  /** A run that follows the request loop is fed by it, at every moment. */
  lemma FollowersAreFed(cfg: Config, run: seq<Action>, s: State, r: Run)
    requires Leads(cfg, Initial(), run, s) && Follows(run, r)
    ensures FedBy(s, r)
  {
    var acts, all := NetworkActs(run), ActsOf(r);
    RunBytes(cfg, Initial(), run, s);
    assert "" + Bytes(acts) == Bytes(acts);
    EndActsCarryNothing(r);
    assert all == acts + all[|acts|..];
    BytesAppend(acts, all[|acts|..]);
    if s.p.ended {
      var i :| 0 <= i < |acts| && acts[i] == RequestEnds;
      assert all[i] == RequestEnds;
      assert acts == all;
    }
  }

  /** Retries never show: the scan sees (a prefix of) the one body that answered with success. */
  lemma FedByOneBody(net: Network, consumer: Consumer, retries: nat, s: State)
    requires retries <= 64 && FedBy(s, ExportRun(net, consumer, retries))
    ensures Completes(s, LastBody(net, ExportRun(net, consumer, retries)))
  {
    NoByteIsReplayed(net, consumer, retries);
  }

  lemma ReachedByRun(cfg: Config, run: seq<Action>, s: State)
    requires cfg.vectorSize > 0 && Leads(cfg, Initial(), run, s)
    ensures Reachable(cfg, s)
  {
  }

  /**
   * End to end, at every moment: for every network, every retry history, every consumer and every
   * interleaving, what has been returned is a prefix of the capped rows of one success response.
   */
  lemma NativeScanPrefix(net: Network, consumer: Consumer, retries: nat, cfg: Config, run: seq<Action>, s: State)
    requires retries <= 64 && cfg.vectorSize > 0
    requires Leads(cfg, Initial(), run, s) && Follows(run, ExportRun(net, consumer, retries))
    ensures var body := LastBody(net, ExportRun(net, consumer, retries));
            Emitted(s.c.scans) <= NativeMeaning(cfg.cap, BodyMeaning(cfg.parser, body)).rows
  {
    FollowersAreFed(cfg, run, s, ExportRun(net, consumer, retries));
    FedByOneBody(net, consumer, retries, s);
    ReachedByRun(cfg, run, s);
    RowsArePrefix(cfg, s, LastBody(net, ExportRun(net, consumer, retries)));
  }

  /** An undisturbed scan that reaches its end has returned exactly those rows, each once and in order. */
  lemma NativeScanEndToEnd(net: Network, consumer: Consumer, retries: nat, cfg: Config, run: seq<Action>, s: State)
    requires retries <= 64 && cfg.vectorSize > 0
    requires Leads(cfg, Initial(), run, s) && Follows(run, ExportRun(net, consumer, retries))
    requires SawEnd(s) && !s.cancelled && !s.interrupted
    ensures var body := LastBody(net, ExportRun(net, consumer, retries));
            Meaning(Emitted(s.c.scans), None) == NativeMeaning(cfg.cap, BodyMeaning(cfg.parser, body))
  {
    FollowersAreFed(cfg, run, s, ExportRun(net, consumer, retries));
    FedByOneBody(net, consumer, retries, s);
    ReachedByRun(cfg, run, s);
    EndIsComplete(cfg, s, LastBody(net, ExportRun(net, consumer, retries)));
  }

  lemma LeadsFromStep(cfg: Config, s: State, a: Action, run: seq<Action>, t: State)
    requires Enabled(s, a) && Leads(cfg, Next(cfg, s, a), run, t)
    ensures Leads(cfg, s, [a] + run, t)
  {
    assert ([a] + run)[1..] == run;
  }

  /** Every beginning of a run that follows the request loop is such a run too. */
  lemma {:induction false} BeginningsFollow(cfg: Config, s: State, run: seq<Action>, t: State, i: nat)
    requires Leads(cfg, s, run, t) && i <= |run|
    ensures NetworkActs(run[..i]) <= NetworkActs(run)
    ensures exists m :: Leads(cfg, s, run[..i], m)
    decreases i
  {
    if i == 0 {
      assert run[..0] == [] && Leads(cfg, s, run[..0], s);
    } else {
      var a, rest := run[0], run[1..];
      BeginningsFollow(cfg, Next(cfg, s, a), rest, t, i - 1);
      assert run[..i] == [a] + rest[..i - 1] && run == [a] + rest;
      ActsOfStep(a, rest, "");
      ActsOfStep(a, rest[..i - 1], "");
      var m :| Leads(cfg, Next(cfg, s, a), rest[..i - 1], m);
      LeadsFromStep(cfg, s, a, rest[..i - 1], m);
    }
  }

  /** So the prefix claim holds at every moment of the run. */
  lemma PrefixAtEveryMoment(net: Network, consumer: Consumer, retries: nat, cfg: Config, run: seq<Action>, s: State, i: nat)
    requires retries <= 64 && cfg.vectorSize > 0 && i <= |run|
    requires Leads(cfg, Initial(), run, s) && Follows(run, ExportRun(net, consumer, retries))
    ensures exists m :: Leads(cfg, Initial(), run[..i], m) &&
              Emitted(m.c.scans) <=
                NativeMeaning(cfg.cap, BodyMeaning(cfg.parser, LastBody(net, ExportRun(net, consumer, retries)))).rows
  {
    BeginningsFollow(cfg, Initial(), run, s, i);
    var m :| Leads(cfg, Initial(), run[..i], m);
    NativeScanPrefix(net, consumer, retries, cfg, run[..i], m);
  }

  //------------------------------------------------------------------ the producer as the consumer

  /** The reply of the producer's callback once the bytes so far have been processed undisturbed. */
  function ReplyTo(cfg: Config, bytes: string): Reply {
    var m := MeaningOf(cfg.parser, Complete(bytes));
    if Exceeds(CapBound(cfg.cap), m.rows) then Refuses else if m.error.Some? then Throws else Wants
  }

  function ProducerReply(cfg: Config): Consumer {
    received => ReplyTo(cfg, Flatten(received))
  }

  /** It wants more where the producer waits for the network again. */
  lemma WantsWhereReceiving(cfg: Config, s: State)
    requires Reachable(cfg, s) && s.p.at == Receiving
    ensures ReplyTo(cfg, s.stream) == Wants
  {
    ReceivingIsReady(cfg, s);
  }

  /** In an undisturbed run the reply is what the producer did, until the request has ended. */
  lemma RepliesAsProduced(cfg: Config, s: State)
    requires Reachable(cfg, s) && !s.p.ended && !s.interrupted && !s.cancelled
    ensures s.p.at == Receiving ==> ReplyTo(cfg, s.stream) == Wants
    ensures s.p.limitReached ==> ReplyTo(cfg, s.stream) == Refuses
    ensures s.p.caught.Some? && s.p.caught.value.Search? ==> ReplyTo(cfg, s.stream) == Throws
  {
    InvReachable(cfg, s);
    SplitOfUnlines(s.done, s.p.rest);
    MeaningAppend(cfg.parser, s.done, Complete(s.p.rest));
    var m, more := MeaningOf(cfg.parser, s.done), MeaningOf(cfg.parser, Complete(s.p.rest));
    BoundedSettles(CapBound(cfg.cap), m, more);
    assert Complete(s.stream) == s.done + Complete(s.p.rest);
    if s.p.at == Receiving { WantsWhereReceiving(cfg, s); }
  }

  lemma Grouped(a: string, b: string, c: string)
    ensures a + (b + c) == (a + b) + c
  {
  }

  /** The bytes of the first `i` network acts, one act further on. */
  lemma BytesLater(a: Action, run: seq<Action>, stream: string, i: nat)
    requires i < |NetworkActs([a] + run)| && (FromNetwork(a) ==> i > 0)
    ensures var j, now := if FromNetwork(a) then i - 1 else i, stream + if a.Chunk? then a.data else "";
            j < |NetworkActs(run)| && stream + Bytes(NetworkActs([a] + run)[..i]) == now + Bytes(NetworkActs(run)[..j])
  {
    ActsOfStep(a, run, stream);
    var rest := NetworkActs(run);
    if FromNetwork(a) {
      assert NetworkActs([a] + run)[..i] == [a] + rest[..i - 1];
      BytesOfOne(a, rest[..i - 1]);
      Grouped(stream, if a.Chunk? then a.data else "", Bytes(rest[..i - 1]));
    } else {
      assert NetworkActs([a] + run) == rest && stream + "" == stream;
    }
  }

  lemma WantedFirst(cfg: Config, s: State, a: Action)
    requires Reachable(cfg, s) && Enabled(s, a) && FromNetwork(a)
    ensures ReplyTo(cfg, s.stream + "") == Wants
  {
    assert s.stream + "" == s.stream;
    WantsWhereReceiving(cfg, s);
  }

  /** Before each network act of a run the producer has wanted more. */
  lemma {:induction false} WantedEveryAct(cfg: Config, s: State, run: seq<Action>, t: State, i: nat)
    requires Reachable(cfg, s) && Leads(cfg, s, run, t) && i < |NetworkActs(run)|
    ensures ReplyTo(cfg, s.stream + Bytes(NetworkActs(run)[..i])) == Wants
    decreases |run|
  {
    var a, more := run[0], run[1..];
    if FromNetwork(a) && i == 0 {
      assert NetworkActs(run)[..0] == [];
      WantedFirst(cfg, s, a);
    } else {
      StepBytes(cfg, s, a);
      ReachableStep(cfg, s, a);
      assert run == [a] + more;
      BytesLater(a, more, s.stream, i);
      WantedEveryAct(cfg, Next(cfg, s, a), more, t, if FromNetwork(a) then i - 1 else i);
    }
  }

  /** A network that answers with a success of these chunks, complete or broken off. */
  function Answering(chunks: seq<string>, failure: Option<TransportError>): Network {
    _ => Attempt(false, Answered(200, None, chunks, failure), false)
  }

  lemma {:induction false} AllTaken(cfg: Config, received: seq<string>, chunks: seq<string>)
    requires forall i :: 0 <= i < |chunks| ==> ReplyTo(cfg, Flatten(received + chunks[..i])) == Wants
    ensures Offer(ProducerReply(cfg), received, chunks) == received + chunks
    ensures chunks != [] ==> Answer(ProducerReply(cfg), received, chunks) == ReplyTo(cfg, Flatten(received + chunks))
    decreases |chunks|
  {
    if chunks == [] {
      assert received + chunks == received;
    } else {
      var now, rest := received + [chunks[0]], chunks[1..];
      assert received + chunks == now + rest;
      if rest == [] {
        assert now + rest == now;
      } else {
        forall i | 0 <= i < |rest| ensures ReplyTo(cfg, Flatten(now + rest[..i])) == Wants {
          assert received + chunks[..i + 1] == now + rest[..i];
        }
        AllTaken(cfg, now, rest);
        assert now == now + rest[..0];
      }
    }
  }

  /** How such an answer ends for a producer that wants all of it. */
  function AnswerEnds(chunks: seq<string>, failure: Option<TransportError>): Finish {
    match failure case None => Completed case Some(e) => TransportFailed(|Flatten(chunks)|, e)
  }

  /** The chunks of an answer, and perhaps its end. */
  predicate NetworkDelivers(acts: seq<Action>, chunks: seq<string>, failure: Option<TransportError>) {
    acts == ChunkActs(chunks) || acts == ChunkActs(chunks) + EndActs(AnswerEnds(chunks, failure))
  }

  /** When the producer wants all chunks, the request loop hands them all over. */
  lemma AllHandedOver(cfg: Config, chunks: seq<string>, failure: Option<TransportError>)
    requires forall i :: 0 <= i < |chunks| ==> ReplyTo(cfg, Flatten(chunks[..i])) == Wants
    ensures var net := Answering(chunks, failure); var r := ExportRun(net, ProducerReply(cfg), 0);
            && r.received == chunks && LastBody(net, r) == Flatten(chunks)
            && (ReplyTo(cfg, Flatten(chunks)) == Wants ==> r.finish == AnswerEnds(chunks, failure))
  {
    AllTakenAtOnce(cfg, chunks);
    OneAnswer(ProducerReply(cfg), chunks, failure);
  }

  lemma AllTakenAtOnce(cfg: Config, chunks: seq<string>)
    requires forall i :: 0 <= i < |chunks| ==> ReplyTo(cfg, Flatten(chunks[..i])) == Wants
    ensures Offer(ProducerReply(cfg), [], chunks) == chunks
    ensures ReplyTo(cfg, Flatten(chunks)) == Wants ==> Answer(ProducerReply(cfg), [], chunks) == Wants
  {
    forall i | 0 <= i < |chunks| ensures ReplyTo(cfg, Flatten([] + chunks[..i])) == Wants {
      assert [] + chunks[..i] == chunks[..i];
    }
    AllTaken(cfg, [], chunks);
    assert [] + chunks == chunks;
  }

  lemma OneAnswer(consumer: Consumer, chunks: seq<string>, failure: Option<TransportError>)
    requires Offer(consumer, [], chunks) == chunks
    ensures var net := Answering(chunks, failure); var r := ExportRun(net, consumer, 0);
            && r.received == chunks && LastBody(net, r) == Flatten(chunks)
            && (Answer(consumer, [], chunks) == Wants ==> r.finish == AnswerEnds(chunks, failure))
  {
    var x := Answered(200, None, chunks, failure);
    var t := TakeTurn(Answering(chunks, failure)(0), consumer, 0, 0, []);
    assert Reaching(x) == chunks;
    assert Judge(x, 0, 0, |Flatten(chunks)|) == End(AnswerEnds(chunks, failure));
    assert t.Over? && t.run.received == chunks && t.run.requests == 1;
    assert ExportRun(Answering(chunks, failure), consumer, 0) == t.run;
  }

  lemma WantedEveryChunk(cfg: Config, run: seq<Action>, s: State, chunks: seq<string>, failure: Option<TransportError>, i: nat)
    requires cfg.vectorSize > 0 && Leads(cfg, Initial(), run, s) && NetworkDelivers(NetworkActs(run), chunks, failure)
    requires i < |NetworkActs(run)|
    ensures i <= |chunks| && ReplyTo(cfg, Flatten(chunks[..i])) == Wants
  {
    var acts := NetworkActs(run);
    assert Leads(cfg, Initial(), [], Initial());
    WantedEveryAct(cfg, Initial(), run, s, i);
    assert acts[..i] == ChunkActs(chunks[..i]);
    BytesOfChunks(chunks[..i]);
    assert "" + Bytes(acts[..i]) == Bytes(acts[..i]);
  }

  /**
   * The producer is such a consumer: every run that is fed one answer, complete, broken off or still coming,
   * follows the request loop that gets this answer and has the producer as its consumer.
   */
  lemma EveryRunFollows(cfg: Config, run: seq<Action>, s: State, chunks: seq<string>, failure: Option<TransportError>)
    requires cfg.vectorSize > 0 && Leads(cfg, Initial(), run, s) && NetworkDelivers(NetworkActs(run), chunks, failure)
    ensures var net := Answering(chunks, failure); var r := ExportRun(net, ProducerReply(cfg), 0);
            Follows(run, r) && LastBody(net, r) == Flatten(chunks)
  {
    forall i | 0 <= i < |chunks| ensures ReplyTo(cfg, Flatten(chunks[..i])) == Wants {
      WantedEveryChunk(cfg, run, s, chunks, failure, i);
    }
    AllHandedOver(cfg, chunks, failure);
    if |NetworkActs(run)| > |chunks| {
      WantedEveryChunk(cfg, run, s, chunks, failure, |chunks|);
      assert chunks[..|chunks|] == chunks;
    }
  }

  //------------------------------------------------------------------ native and browser

  /** A native scan that ends normally has returned what the browser scan returns, and that one ends normally too. */
  lemma EndAgreesWithBrowser(cfg: Config, s: State, body: string)
    requires Reachable(cfg, s) && Completes(s, body)
    requires SawEnd(s) && !s.cancelled && !s.interrupted
    ensures Meaning(Emitted(s.c.scans), None) == BrowserMeaning(cfg.cap, BodyMeaning(cfg.parser, body))
  {
    EndIsComplete(cfg, s, body);
  }

  /**
   * On any response both platforms decode the same rows; they raise the same error, or none, except
   * exactly when the first error line comes right after the cap-th row: the native scan raises it, the
   * browser scan has stopped before it.
   */
  lemma PlatformsAgreeExactly(cfg: Config, s: State, body: string)
    requires Reachable(cfg, s) && Completes(s, body)
    requires s.finished && !s.cancelled && !s.interrupted && !(s.error.Some? && s.error.value.Request?)
    ensures var m := BodyMeaning(cfg.parser, body);
            && Pushed(s) == BrowserMeaning(cfg.cap, m).rows
            && (SearchErrorOf(s.error) == BrowserMeaning(cfg.cap, m).error <==>
                  !(cfg.cap > 0 && |m.rows| == cfg.cap && m.error.Some?))
  {
    FinishedIsExact(cfg, s, body);
    MeaningsDifferExactly(cfg.cap, BodyMeaning(cfg.parser, body));
  }
}
