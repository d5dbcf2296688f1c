/** The producer thread of the step system does to its rows what the sequential reader does. */
module ProducerRefinement {
  import opened Common
  import opened Lines
  import opened Reference
  import opened ScanInvariant
  import opened ScanMachine
  import opened ScanTheorems
  import ChunkReader

  /** Waiting for the network, the producer is where the reader is between two callbacks. */
  lemma ReceivingIsReady(cfg: Config, s: State)
    requires Reachable(cfg, s) && s.p.at == Receiving
    ensures s.done == Complete(s.stream)
    ensures ChunkReader.ReadyWith(cfg.parser, ChunkReader.BoundOf(cfg.cap, None), s.stream,
                                  s.p.rest, Pushed(s), s.p.produced, s.p.limitReached)
  {
    InvReachable(cfg, s);
    SplitOfUnlines(s.done, s.p.rest);
    NewlineFree(s.p.rest);
    assert s.done + [] == s.done;
    var m := MeaningOf(cfg.parser, s.done);
    assert m.rows[..|m.rows|] == m.rows;
  }

  /** The row at which a finished producer was refused, if it was: the reader's cancellation point. */
  function RefusedAt(s: State): Option<nat> {
    if s.p.limitReached then Some(s.p.produced) else None
  }

  /** How the producer's `try` block ended, as the reader reports it. */
  function Ending(s: State): ChunkReader.Progress {
    match s.p.caught
    case Some(Search(e)) => ChunkReader.Threw(e)
    case Some(Request(_)) => ChunkReader.Failed
    case None => if s.p.limitReached then ChunkReader.Stopped else ChunkReader.More
  }

  /**
   * Whatever the interleaving, and disturbed or not: a finished producer has pushed the rows, and ended the
   * way, the sequential reader does on the same bytes when the scan is cancelled at the same row. So the
   * reader's constant cancellation point stands for every wait for buffer space.
   */
  lemma FinishedLikeReader(cfg: Config, s: State, body: string)
    requires Reachable(cfg, s) && s.finished && Completes(s, body)
    ensures var bound := ChunkReader.BoundOf(cfg.cap, RefusedAt(s));
            if Ending(s) == ChunkReader.Failed then
              ChunkReader.Delivered(bound, MeaningOf(cfg.parser, Complete(s.stream)), Pushed(s), ChunkReader.More)
            else
              ChunkReader.Delivered(bound, BodyMeaning(cfg.parser, body), Pushed(s), Ending(s))
  {
    InvReachable(cfg, s);
    var bound := ChunkReader.BoundOf(cfg.cap, RefusedAt(s));
    if Ending(s) == ChunkReader.Failed {
      CompleteLinesPushed(cfg, s);
    } else {
      var ahead := DoneIsPrefix(s, body);
      FinishedRows(cfg, s, MeaningOf(cfg.parser, s.done));
      if Ending(s) == ChunkReader.More {
        assert s.done + ahead == s.done;
      } else {
        ChunkReader.DeliverySettles(cfg.parser, bound, s.done, ahead, Pushed(s), Ending(s));
      }
    }
  }

  lemma FinishedRows(cfg: Config, s: State, m: Meaning)
    requires PhaseInv(s) && RowInv(cfg, s, m) && s.finished && Ending(s) != ChunkReader.Failed
    ensures ChunkReader.Delivered(ChunkReader.BoundOf(cfg.cap, RefusedAt(s)), m, Pushed(s), Ending(s))
  {
    assert m.rows[..|m.rows|] == m.rows;
  }
}
