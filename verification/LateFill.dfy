/**
 * A pass whose buckets miss a fill: a print stamped after the book that plays it fills the order placed before it,
 * and falls after the last bucket.
 */
module LateFill {
  import opened Schemas
  import opened Bucketize
  import opened SweepCell
  import Sorting
  import Fifo
  import E = EngineState

  const VIEW := BookView([Row(98, 5.0, 1)], [Row(102, 5.0, 1)], None)
  const HERE := Key(Bid, 99)
  const QUOTE := E.Pending(0.0, E.PlaceQuote(HERE, 1.0), 0)
  const PRINT := Trade("COIN", 20, 98, 1.0, Ask)
  const FILL := Fill(1, Bid, 99, 1.0, 20, None, 0.0, Some(100.0))
  const FREE := E.Config(0.0, 0.0, 0.0)

  const TAPE: seq<E.Event> := [
    E.BookSeen(0, VIEW, None, false, [E.PlaceQuote(HERE, 1.0)]), E.TradeSeen(PRINT),
    E.BookSeen(10, VIEW, None, false, [])]

  function Before(): E.Engine {
    E.Start(FREE, E.Sim.Init("COIN", Pessimistic))
  }

  lemma FirstBook()
    ensures var e := E.Step(Before(), TAPE[0]);
      e.sim == E.Sim.Init("COIN", Pessimistic).(view := Some(VIEW), stats := e.sim.stats) && e.pending == [QUOTE] &&
      e.tradesBuf == [] && e.mid == Some(100.0) && e.lastT == Some(0) && e.ledger == NOTHING && e.fills == [] &&
      e.midSeries == [(0, 100.0)] && e.config == FREE
  {
    assert E.Submit([E.PlaceQuote(HERE, 1.0)], 0.0, 0) == [QUOTE];
    assert [] + [(0, 100.0)] == [(0, 100.0)];
  }

  lemma Placed(s: E.Sim.SimState)
    requires s == E.Sim.Init("COIN", Pessimistic).(view := Some(VIEW), stats := s.stats)
    ensures E.Due([QUOTE], 10) == [QUOTE]
    ensures E.ApplyActions(s, [QUOTE]) ==
      s.(nextId := 2, registry := map[1 := HERE], levels := map[HERE := Fifo.LevelState([Fifo.Own(1, 1.0)], 0.0)])
  {
    assert [QUOTE][1..] == [] && [QUOTE][..0] == [];
    assert VIEW.Rows(Bid)[..0] == [];
    assert [] + [Fifo.Own(1, 1.0)] == [Fifo.Own(1, 1.0)];
  }

  lemma OnlyHere(levels: map<Key, Fifo.LevelState>)
    requires levels.Keys == {HERE}
    ensures E.Sim.LevelsBestFirst(levels, Bid) == [HERE]
  {
    var ranks := set k | k in levels && k.side == Bid :: Rank(Bid, k.px);
    assert ranks == {-99} by {
      assert HERE in levels && Rank(Bid, HERE.px) == -99;
    }
    Sorting.AscendingUnique(Sorting.Listing(ranks), [-99]);
  }

  lemma Filled(s: E.Sim.SimState)
    requires s.coin == "COIN" && s.bound == Pessimistic &&
      s.levels == map[HERE := Fifo.LevelState([Fifo.Own(1, 1.0)], 0.0)]
    requires s.view == Some(VIEW) && s.lastHeight == None
    ensures E.PlayTrades(s, [PRINT]).1 == [FILL]
  {
    hide E.Sim.LevelsBestFirst;
    OnlyHere(s.levels);
    var q: Fifo.Queue := [Fifo.Own(1, 1.0)];
    assert q[1..] == [];
    assert Fifo.WalkThrough(false, q, 0.0, 0.0).fills == [Fifo.PartFill(1, 1.0, 0.0)];
    assert E.Sim.EmitAll(s, HERE, PRINT, [Fifo.PartFill(1, 1.0, 0.0)]) == [FILL];
    var (s1, f1) := E.Sim.OnLevel(s, HERE, PRINT);
    assert E.Sim.OnLevels(s1, [HERE][1..], PRINT) == (s1, []);
    assert f1 + [] == f1 && [PRINT][..0] == [] && [] + f1 == f1;
  }

  lemma Booked()
    ensures var l := E.ApplyFills(NOTHING, [FILL], 0.0); l.cash == -99.0 && l.inventory == 1.0
  {
    assert [FILL][..0] == [];
    assert E.Notional(FILL) == 99.0;
  }

  lemma SecondBook(e: E.Engine)
    requires e.sim == E.Sim.Init("COIN", Pessimistic).(view := Some(VIEW), stats := e.sim.stats) && e.pending == [QUOTE]
    requires e.tradesBuf == [PRINT] && e.mid == Some(100.0) && e.ledger == NOTHING && e.fills == [] &&
      e.midSeries == [(0, 100.0)] && e.config == FREE
    ensures var e' := E.Step(e, TAPE[2]);
      e'.fills == [FILL] && e'.mid == Some(100.0) && e'.midSeries == [(0, 100.0), (10, 100.0)] && TotalPnl(e') == 1.0
  {
    hide E.ApplyActions, E.PlayTrades, E.Sim.OnBook, E.Due, E.NotDue, E.Submit, E.ApplyFills;
    Placed(e.sim);
    Booked();
    Filled(E.ApplyActions(e.sim, [QUOTE]));
    assert [] + [FILL] == [FILL];
    assert [(0, 100.0)] + [(10, 100.0)] == [(0, 100.0), (10, 100.0)];
    assert e.ledger.(cash := e.ledger.cash - 0.0, fundingPaid := e.ledger.fundingPaid + 0.0) == NOTHING;
  }

  lemma Unrolled()
    ensures E.Run(Before(), TAPE) == E.Step(E.Step(E.Step(Before(), TAPE[0]), TAPE[1]), TAPE[2])
    ensures E.BlockTimes(TAPE) == [0, 10] && Waiting(TAPE[..2]) == [PRINT]
  {
    hide E.Step, Before;
    assert TAPE[..3] == TAPE && TAPE[..3][..2] == TAPE[..2] && TAPE[..2][..1] == TAPE[..1] && TAPE[..1][..0] == [];
    assert E.Run(Before(), []) == Before();
    assert E.Run(Before(), TAPE[..1]) == E.Step(Before(), TAPE[0]);
    assert E.Run(Before(), TAPE[..2]) == E.Step(E.Step(Before(), TAPE[0]), TAPE[1]);
    assert E.BlockTimes([]) == [] && E.BlockTimes(TAPE[..1]) == [0] && E.BlockTimes(TAPE[..2]) == [0] &&
      [0] + [10] == [0, 10];
    assert Waiting(TAPE[..1]) == [] && [] + [PRINT] == [PRINT];
  }

  /** The pass makes 1.0 on one fill; its buckets hold no fill and sum to nothing. */
  lemma BucketsMissALateFill()
    ensures var e := E.Run(Before(), TAPE);
      Spans(e.midSeries) && E.Nondecreasing(E.BlockTimes(TAPE)) && !PlayedOnTime(TAPE) &&
      PassFillsLate(FREE, E.Sim.Init("COIN", Pessimistic), TAPE, 10) &&
      TotalPnl(e) == 1.0 && |e.fills| == 1 && OnTime(e.fills, LastTime(TAPE)) == [] && Worth([], 0.0, 100.0) == 0.0
  {
    hide E.Step, PassFillsLate, E.Run;
    Unrolled();
    FirstBook();
    WaitingStep(E.Step(Before(), TAPE[0]), TAPE[1]);
    SecondBookOf(E.Step(Before(), TAPE[0]));
    NoFillsWorthNothing(0.0, 100.0);
    PassFillsLateIff(FREE, E.Sim.Init("COIN", Pessimistic), TAPE, 10);
    assert [FILL][1..] == [];
  }

  lemma SecondBookOf(e: E.Engine)
    requires e.sim == E.Sim.Init("COIN", Pessimistic).(view := Some(VIEW), stats := e.sim.stats) &&
      e.pending == [QUOTE] && e.tradesBuf == []
    requires e.mid == Some(100.0) && e.ledger == NOTHING && e.fills == [] && e.midSeries == [(0, 100.0)] &&
      e.config == FREE
    ensures var e' := E.Step(E.Step(e, TAPE[1]), TAPE[2]);
      e'.fills == [FILL] && e'.mid == Some(100.0) && e'.midSeries == [(0, 100.0), (10, 100.0)] && TotalPnl(e') == 1.0
  {
    hide E.OnBookSeen;
    assert [] + [PRINT] == [PRINT];
    SecondBook(E.Step(e, TAPE[1]));
  }
}
