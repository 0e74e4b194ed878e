/** One cell of the sweep: a pass of the engine and its buckets, and which fills the buckets miss. */
module SweepCell {
  import opened Schemas
  import opened Bucketize
  import E = EngineState
  import Fifo

  // ---------- when a stream plays its prints ----------

  /** The prints that have arrived since the last book. */
  function Waiting(evs: seq<E.Event>): seq<Trade> {
    if evs == [] then [] else
      match evs[|evs| - 1]
      case TradeSeen(trade) => Waiting(evs[..|evs| - 1]) + [trade]
      case BookSeen(_, _, _, _, _) => []
      case OtherEvent => Waiting(evs[..|evs| - 1])
  }

  /** No print is stamped after `end`. */
  ghost predicate TradesBy(trades: seq<Trade>, end: int) {
    forall i :: 0 <= i < |trades| ==> trades[i].tMs <= end
  }

  /** Every print is stamped at or before the book that plays it. */
  ghost predicate PlayedOnTime(evs: seq<E.Event>) {
    evs == [] ||
    (PlayedOnTime(evs[..|evs| - 1]) &&
      (evs[|evs| - 1].BookSeen? ==> TradesBy(Waiting(evs[..|evs| - 1]), evs[|evs| - 1].tMs)))
  }

  function Stamp(ev: E.Event): Option<int> {
    match ev
    case TradeSeen(trade) => Some(trade.tMs)
    case BookSeen(t, _, _, _, _) => Some(t)
    case OtherEvent => None
  }

  /** The stream is merged in time order, prints before the books of their time. */
  ghost predicate MergedByTime(evs: seq<E.Event>) {
    forall i, j :: 0 <= i < j < |evs| ==> StampsOrdered(evs[i], evs[j])
  }

  predicate StampsOrdered(a: E.Event, b: E.Event) {
    Stamp(a).Some? && Stamp(b).Some? ==> Stamp(a).value <= Stamp(b).value
  }

  lemma {:induction false} WaitingSeen(evs: seq<E.Event>)
    ensures forall i :: 0 <= i < |Waiting(evs)| ==> E.TradeSeen(Waiting(evs)[i]) in evs
  {
    if evs != [] { WaitingSeen(evs[..|evs| - 1]); }
  }

  /** Some event of the stream is stamped `t`. */
  ghost predicate SeenAt(evs: seq<E.Event>, t: int) {
    exists j :: 0 <= j < |evs| && Stamp(evs[j]) == Some(t)
  }

  lemma {:induction false} TimesSeen(evs: seq<E.Event>)
    ensures forall i :: 0 <= i < |E.BlockTimes(evs)| ==> SeenAt(evs, E.BlockTimes(evs)[i])
  {
    if evs != [] {
      var n := |evs| - 1;
      TimesSeen(evs[..n]);
      forall i | 0 <= i < |E.BlockTimes(evs)| ensures SeenAt(evs, E.BlockTimes(evs)[i]) {
        if i < |E.BlockTimes(evs[..n])| {
          assert SeenAt(evs[..n], E.BlockTimes(evs)[i]);
          var j :| 0 <= j < n && Stamp(evs[..n][j]) == Some(E.BlockTimes(evs)[i]);
          assert Stamp(evs[j]) == Some(E.BlockTimes(evs)[i]);
        } else {
          assert Stamp(evs[n]) == Some(E.BlockTimes(evs)[i]);
        }
      }
    }
  }

  /** A stream merged in time order plays every print on time and its block times never go back. */
  lemma {:induction false} MergedStreamsPlayOnTime(evs: seq<E.Event>)
    requires MergedByTime(evs)
    ensures PlayedOnTime(evs) && E.Nondecreasing(E.BlockTimes(evs))
  {
    if evs != [] {
      var n := |evs| - 1;
      assert forall i :: 0 <= i < n ==> evs[..n][i] == evs[i];
      MergedStreamsPlayOnTime(evs[..n]);
      if evs[n].BookSeen? {
        var waiting, times := Waiting(evs[..n]), E.BlockTimes(evs[..n]);
        WaitingSeen(evs[..n]);
        forall i | 0 <= i < |waiting| ensures waiting[i].tMs <= evs[n].tMs {
          var j :| 0 <= j < n && evs[..n][j] == E.TradeSeen(waiting[i]);
          assert StampsOrdered(evs[j], evs[n]);
        }
        TimesSeen(evs[..n]);
        forall i | 0 <= i < |times| ensures times[i] <= evs[n].tMs {
          assert SeenAt(evs[..n], times[i]);
          var j :| 0 <= j < n && Stamp(evs[..n][j]) == Some(times[i]);
          assert StampsOrdered(evs[j], evs[n]);
        }
      }
    }
  }

  // ---------- which fills are late ----------

  ghost predicate FillsBy(fills: seq<Fill>, end: int) {
    forall i :: 0 <= i < |fills| ==> fills[i].tMs <= end
  }

  lemma {:induction false} NoneLate(fills: seq<Fill>, end: int)
    ensures FillsBy(fills, end) <==> Late(fills, end) == []
  {
    if fills != [] {
      NoneLate(fills[1..], end);
      assert FillsBy(fills, end) <==> fills[0].tMs <= end && FillsBy(fills[1..], end);
    }
  }

  lemma FillsByAppend(a: seq<Fill>, b: seq<Fill>, end: int)
    ensures FillsBy(a + b, end) <==> FillsBy(a, end) && FillsBy(b, end)
  {
    assert forall i :: 0 <= i < |a| ==> (a + b)[i] == a[i];
    assert forall i :: 0 <= i < |b| ==> (a + b)[|a| + i] == b[i];
  }

  /** Every fill carries the stamp `t`. */
  ghost predicate Stamped(fills: seq<Fill>, t: int) {
    forall i :: 0 <= i < |fills| ==> fills[i].tMs == t
  }

  lemma {:induction false} EmitStamps(st: E.Sim.SimState, key: Key, trade: Trade, parts: seq<Fifo.PartFill>)
    ensures Stamped(E.Sim.EmitAll(st, key, trade, parts), trade.tMs)
  {
    if parts != [] { EmitStamps(st, key, trade, parts[1..]); }
  }

  lemma LevelStamps(st: E.Sim.SimState, key: Key, trade: Trade)
    requires key in st.levels
    ensures Stamped(E.Sim.OnLevel(st, key, trade).1, trade.tMs)
  {
    hide E.Sim.EmitAll;
    EmitStamps(st, key, trade, Fifo.Walk(st.bound == Exact, st.levels[key], E.Sim.PrintOn(key, trade)).fills);
  }

  lemma {:induction false} LevelsStamp(st: E.Sim.SimState, keys: seq<Key>, trade: Trade)
    ensures Stamped(E.Sim.OnLevels(st, keys, trade).1, trade.tMs)
    decreases keys
  {
    hide E.Sim.OnLevel;
    if keys != [] {
      if keys[0] in st.levels && E.Sim.TradeReaches(keys[0].side, keys[0].px, trade.px) {
        LevelStamps(st, keys[0], trade);
        LevelsStamp(E.Sim.OnLevel(st, keys[0], trade).0, keys[1..], trade);
      } else {
        LevelsStamp(st, keys[1..], trade);
      }
    }
  }

  /** Fills carry the stamp of the print that made them. */
  lemma FillsCarryTheStamp(st: E.Sim.SimState, trade: Trade)
    ensures Stamped(E.Sim.OnTrade(st, trade).1, trade.tMs)
  {
    hide E.Sim.OnLevels;
    LevelsStamp(st, E.Sim.LevelsBestFirst(st.levels, E.Sim.RestingSideHit(trade.side)), trade);
  }

  lemma StampedBy(fills: seq<Fill>, t: int, end: int)
    requires Stamped(fills, t)
    ensures FillsBy(fills, end) <==> fills == [] || t <= end
  {
    if fills != [] { assert fills[0].tMs == t; }
  }

  /** Some print stamped after `end` finds one of our orders. */
  ghost predicate FillsLate(st: E.Sim.SimState, trades: seq<Trade>, end: int) {
    trades != [] &&
    var n := |trades| - 1;
    FillsLate(st, trades[..n], end) ||
    (trades[n].tMs > end && E.Sim.OnTrade(E.PlayTrades(st, trades[..n]).0, trades[n]).1 != [])
  }

  lemma {:induction false} FillsLateIff(st: E.Sim.SimState, trades: seq<Trade>, end: int)
    ensures FillsBy(E.PlayTrades(st, trades).1, end) <==> !FillsLate(st, trades, end)
  {
    hide E.Sim.OnTrade;
    if trades != [] {
      var n := |trades| - 1;
      FillsLateIff(st, trades[..n], end);
      var (s1, f1) := E.PlayTrades(st, trades[..n]);
      FillsCarryTheStamp(s1, trades[n]);
      StampedBy(E.Sim.OnTrade(s1, trades[n]).1, trades[n].tMs, end);
      FillsByAppend(f1, E.Sim.OnTrade(s1, trades[n]).1, end);
    }
  }

  /** In some block of the pass a print stamped after `end` fills us. */
  ghost predicate PassFillsLate(config: E.Config, sim: E.Sim.SimState, evs: seq<E.Event>, end: int) {
    evs != [] &&
    (PassFillsLate(config, sim, evs[..|evs| - 1], end) ||
     BlockFillsLate(E.Run(E.Start(config, sim), evs[..|evs| - 1]), evs[|evs| - 1], end))
  }

  ghost predicate BlockFillsLate(e: E.Engine, ev: E.Event, end: int) {
    ev.BookSeen? && FillsLate(E.ApplyActions(e.sim, E.Due(e.pending, ev.tMs)), e.tradesBuf, end)
  }

  lemma BlockFills(e: E.Engine, ev: E.Event, end: int)
    ensures FillsBy(E.Step(e, ev).fills, end) <==> FillsBy(e.fills, end) && !BlockFillsLate(e, ev, end)
  {
    hide E.ApplyActions, E.PlayTrades, E.Evicted, E.Sim.OnBook, E.ApplyFills, E.NotDue, E.Submit, E.Funding, E.NextMid,
      FillsLate, FillsBy;
    if ev.BookSeen? {
      var acted := E.ApplyActions(e.sim, E.Due(e.pending, ev.tMs));
      FillsLateIff(acted, e.tradesBuf, end);
      FillsByAppend(e.fills, E.PlayTrades(acted, e.tradesBuf).1, end);
    }
  }

  /** A pass has no fill later than `end` exactly when no later print filled us. */
  lemma {:induction false} PassFillsLateIff(config: E.Config, sim: E.Sim.SimState, evs: seq<E.Event>, end: int)
    ensures FillsBy(E.Run(E.Start(config, sim), evs).fills, end) <==> !PassFillsLate(config, sim, evs, end)
  {
    hide E.Step, BlockFillsLate;
    if evs != [] {
      PassFillsLateIff(config, sim, evs[..|evs| - 1], end);
      BlockFills(E.Run(E.Start(config, sim), evs[..|evs| - 1]), evs[|evs| - 1], end);
    }
  }

  lemma {:induction false} NothingLate(st: E.Sim.SimState, trades: seq<Trade>, end: int)
    requires TradesBy(trades, end)
    ensures !FillsLate(st, trades, end)
  {
    if trades != [] { NothingLate(st, trades[..|trades| - 1], end); }
  }

  lemma WaitingStep(e: E.Engine, ev: E.Event)
    ensures E.Step(e, ev).tradesBuf ==
      (if ev.BookSeen? then [] else if ev.TradeSeen? then e.tradesBuf + [ev.trade] else e.tradesBuf)
  {
    hide E.SimBlock, E.ApplyFills, E.NotDue, E.Submit, E.Funding, E.NextMid;
  }

  lemma {:induction false} BufferIsWaiting(config: E.Config, sim: E.Sim.SimState, evs: seq<E.Event>)
    ensures E.Run(E.Start(config, sim), evs).tradesBuf == Waiting(evs)
  {
    hide E.Step;
    if evs != [] {
      BufferIsWaiting(config, sim, evs[..|evs| - 1]);
      WaitingStep(E.Run(E.Start(config, sim), evs[..|evs| - 1]), evs[|evs| - 1]);
    }
  }

  /** Prints played on time fill nothing later than the last block. */
  lemma {:induction false} OnTimeFillsBy(config: E.Config, sim: E.Sim.SimState, evs: seq<E.Event>, end: int)
    requires PlayedOnTime(evs) && forall i :: 0 <= i < |E.BlockTimes(evs)| ==> E.BlockTimes(evs)[i] <= end
    ensures !PassFillsLate(config, sim, evs, end)
  {
    hide E.Run, FillsLate;
    if evs != [] {
      var n := |evs| - 1;
      assert forall i :: 0 <= i < |E.BlockTimes(evs[..n])| ==> E.BlockTimes(evs)[i] == E.BlockTimes(evs[..n])[i];
      OnTimeFillsBy(config, sim, evs[..n], end);
      if evs[n].BookSeen? {
        assert E.BlockTimes(evs)[|E.BlockTimes(evs)| - 1] == evs[n].tMs;
        BufferIsWaiting(config, sim, evs[..n]);
        var e := E.Run(E.Start(config, sim), evs[..n]);
        NothingLate(E.ApplyActions(e.sim, E.Due(e.pending, evs[n].tMs)), Waiting(evs[..n]), end);
      }
    }
  }

  // ---------- the cell ----------

  /** The mids of a pass span a stretch of time: the case in which it has buckets at all. */
  predicate Spans(mids: seq<(int, real)>) {
    mids != [] && mids[0].0 < mids[|mids| - 1].0
  }

  lemma PassTotals(config: E.Config, sim: E.Sim.SimState, evs: seq<E.Event>)
    requires config.fundingRateHourly == 0.0 && E.Nondecreasing(E.BlockTimes(evs))
    requires Spans(E.Run(E.Start(config, sim), evs).midSeries)
    ensures var e := E.Run(E.Start(config, sim), evs); var (end, mark) := e.midSeries[|e.midSeries| - 1];
      MidsInOrder(e.midSeries) && E.BlockTimes(evs) != [] && end == E.BlockTimes(evs)[|E.BlockTimes(evs)| - 1] &&
      TotalPnl(e) ==
        Worth(OnTime(e.fills, end), config.makerFeeBps, mark) + Worth(Late(e.fills, end), config.makerFeeBps, mark) &&
      |e.fills| == |OnTime(e.fills, end)| + |Late(e.fills, end)| &&
      (Late(e.fills, end) == [] <==> !PassFillsLate(config, sim, evs, end))
  {
    hide E.Run, E.ApplyFills, OnTime, Late, PassFillsLate;
    RunLedgerOfFills(config, sim, evs);
    var e := E.Run(E.Start(config, sim), evs);
    var (end, mark) := e.midSeries[|e.midSeries| - 1];
    WorthSplits(e.fills, end, config.makerFeeBps, mark);
    SplitSums(e.fills, end, config.makerFeeBps);
    NoneLate(e.fills, end);
    PassFillsLateIff(config, sim, evs, end);
  }

  /** The last block's time, which is the time of the last mid once there is one. */
  function LastTime(evs: seq<E.Event>): int {
    if E.BlockTimes(evs) == [] then 0 else E.BlockTimes(evs)[|E.BlockTimes(evs)| - 1]
  }

  /**
   * One cell of the sweep: the buckets of a pass without funding. Their counts sum to the pass's fills exactly when
   * no print stamped after the last block fills us; their PnLs fall short of the pass's total by what such fills are
   * worth. With every print stamped at or before the book that plays it, both are exact.
   */
  method CellBuckets(
      config: E.Config, sim: E.Sim.SimState, ghost evs: seq<E.Event>, e: E.Engine, bucketMs: int)
    returns (buckets: seq<Bucket>)
    requires e == E.Run(E.Start(config, sim), evs) && E.Nondecreasing(E.BlockTimes(evs))
    requires bucketMs > 0 && config.fundingRateHourly == 0.0
    ensures !Spans(e.midSeries) ==> buckets == []
    ensures Spans(e.midSeries) ==> (SumFills(buckets) == |e.fills| <==> !PassFillsLate(config, sim, evs, LastTime(evs)))
    ensures Spans(e.midSeries) && e.mid.Some? ==>
      SumPnl(buckets) + Worth(Late(e.fills, LastTime(evs)), config.makerFeeBps, e.mid.value) == TotalPnl(e)
    ensures Spans(e.midSeries) && PlayedOnTime(evs) ==> SumPnl(buckets) == TotalPnl(e) && SumFills(buckets) == |e.fills|
  {
    hide E.Run, E.ApplyFills, OnTime, Late, TotalPnl, PassFillsLate, PlayedOnTime;
    buckets := Bucketize.Bucketize(e.midSeries, e.fills, bucketMs, config.makerFeeBps);
    if Spans(e.midSeries) {
      RunLedgerOfFills(config, sim, evs);
      PassTotals(config, sim, evs);
      NoFillsWorthNothing(config.makerFeeBps, e.midSeries[|e.midSeries| - 1].1);
      if PlayedOnTime(evs) {
        LastIsLatest(evs);
        OnTimeFillsBy(config, sim, evs, LastTime(evs));
      }
    }
  }

  lemma LastIsLatest(evs: seq<E.Event>)
    requires E.Nondecreasing(E.BlockTimes(evs))
    ensures forall i :: 0 <= i < |E.BlockTimes(evs)| ==> E.BlockTimes(evs)[i] <= LastTime(evs)
  {}

  lemma NoFillsWorthNothing(feeBps: real, mark: real)
    ensures Worth([], feeBps, mark) == 0.0
  {}
}
