/**
 * The bar backtester: positions lagged one bar, net returns with costs and a floor at ruin, the compounded equity
 * curve, and the trades read back out of the position series.
 */
module Backtest {
  import opened Schemas

  /** A bar without a close stands for a NaN close. */
  datatype Bar = Bar(time: int, close: Option<real>)

  datatype Trip = Trip(entryTime: int, exitTime: int, side: int, entryPrice: real, exitPrice: real, returnPct: real,
                       bars: nat, isOpen: bool)

  datatype Failure = EmptyData | UnsortedIndex | MissingClose

  datatype Outcome =
    | Ok(equity: seq<real>, net: seq<real>, positions: seq<real>, trips: seq<Trip>)
    | Failed(failure: Failure)

  /** A maximal stretch of bars held with one sign, both ends included. */
  datatype Held = Held(start: nat, end: nat)

  const SNAP := 0.000000001

  // ---------- the pipeline ----------

  /** A signal that is missing counts as flat; the rest is clipped to [-1, 1], and a residual too small is flat. */
  function Target(signal: Option<real>): (r: real)
    ensures -1.0 <= r <= 1.0
  {
    var raw := Min(1.0, Max(-1.0, if signal.Some? then signal.value else 0.0));
    if Abs(raw) > SNAP then raw else 0.0
  }

  /** Bar i is held on the signal of the bar before it. */
  function Position(signals: seq<Option<real>>, i: nat): real
    requires i < |signals|
  {
    if i == 0 then 0.0 else Target(signals[i - 1])
  }

  function Positions(signals: seq<Option<real>>): seq<real> {
    seq(|signals|, i requires 0 <= i < |signals| => Position(signals, i))
  }

  /** No close rises from zero: the only case in which a bar's return is not a number. */
  predicate Priced(closes: seq<real>) {
    forall i :: 0 < i < |closes| && closes[i - 1] == 0.0 ==> closes[i] == 0.0
  }

  /** The change from the close before; zero over zero is undefined and filled with zero. */
  function BarReturn(closes: seq<real>, i: nat): real
    requires i < |closes| && Priced(closes)
  {
    if i == 0 || closes[i - 1] == 0.0 then 0.0 else closes[i] / closes[i - 1] - 1.0
  }

  function Turnover(positions: seq<real>, i: nat): real
    requires i < |positions|
  {
    Abs(if i == 0 then positions[0] else positions[i] - positions[i - 1])
  }

  /** Gross return less the cost of the position change, floored at ruin. */
  function NetOf(position: real, barReturn: real, turnover: real, rate: real): (r: real)
    ensures r >= -1.0
  {
    Max(-1.0, position * barReturn - turnover * rate)
  }

  function Net(closes: seq<real>, positions: seq<real>, rate: real, i: nat): (r: real)
    requires |closes| == |positions| && i < |closes| && Priced(closes)
    ensures r >= -1.0
  {
    NetOf(positions[i], BarReturn(closes, i), Turnover(positions, i), rate)
  }

  function Nets(closes: seq<real>, positions: seq<real>, rate: real): (r: seq<real>)
    requires |closes| == |positions| && Priced(closes)
    ensures |r| == |closes| && forall i :: 0 <= i < |r| ==> r[i] == Net(closes, positions, rate, i)
  {
    seq(|closes|, i requires 0 <= i < |closes| => Net(closes, positions, rate, i))
  }

  /** Compounds a stretch of returns. */
  function Growth(net: seq<real>): real {
    if net == [] then 1.0 else Growth(net[..|net| - 1]) * (1.0 + net[|net| - 1])
  }

  function EquityAt(net: seq<real>, capital: real, i: nat): real
    requires i < |net|
  {
    Growth(net[..i + 1]) * capital
  }

  function Equity(net: seq<real>, capital: real): (r: seq<real>)
    ensures |r| == |net| && forall i :: 0 <= i < |r| ==> r[i] == EquityAt(net, capital, i)
  {
    seq(|net|, i requires 0 <= i < |net| => EquityAt(net, capital, i))
  }

  function CostRate(feeBps: real, slippageBps: real): real {
    (feeBps + slippageBps) / 10000.0
  }

  // ---------- the trades ----------

  function Sign(p: real): int {
    if p > 0.0 then 1 else if p < 0.0 then -1 else 0
  }

  /** Where the run that stands at `i` with sign `sign` stops. */
  function RunEnd(positions: seq<real>, i: nat, sign: int): (r: nat)
    requires i <= |positions|
    ensures i <= r <= |positions|
    ensures forall j :: i <= j < r ==> Sign(positions[j]) == sign
    ensures r < |positions| ==> Sign(positions[r]) != sign
    decreases |positions| - i
  {
    if i < |positions| && Sign(positions[i]) == sign then RunEnd(positions, i + 1, sign) else i
  }

  function HeldFrom(positions: seq<real>, i: nat): seq<Held>
    requires i <= |positions|
    decreases |positions| - i
  {
    if i == |positions| then []
    else if Sign(positions[i]) == 0 then HeldFrom(positions, i + 1)
    else
      var e := RunEnd(positions, i, Sign(positions[i]));
      [Held(i, e - 1)] + HeldFrom(positions, e)
  }

  predicate InBounds(h: Held, n: nat) {
    h.start <= h.end < n
  }

  predicate AllInBounds(held: seq<Held>, n: nat) {
    forall k :: 0 <= k < |held| ==> InBounds(held[k], n)
  }

  function TripOf(h: Held, times: seq<int>, closes: seq<real>, positions: seq<real>, net: seq<real>): Trip
    requires |times| == |closes| == |positions| == |net| && InBounds(h, |times|)
  {
    Trip(times[h.start], times[h.end], Sign(positions[h.start]),
         closes[if h.start > 0 then h.start - 1 else h.start], closes[h.end],
         Growth(net[h.start..h.end + 1]) - 1.0, h.end - h.start + 1, h.end == |positions| - 1)
  }

  /** `held` cuts `positions[from..]` into its maximal one-sign runs, in order, and leaves out only flat bars. */
  ghost predicate Partitions(held: seq<Held>, positions: seq<real>, from: nat) {
    && (forall k :: 0 <= k < |held| ==>
          InBounds(held[k], |positions|) && from <= held[k].start && OneRun(held[k], positions, from))
    && (forall k, l :: 0 <= k < l < |held| ==> held[k].end < held[l].start)
    && (forall i {:trigger Within(held, i)} :: from <= i < |positions| && Sign(positions[i]) != 0 ==> Within(held, i))
  }

  ghost predicate Within(held: seq<Held>, i: int) {
    exists k :: 0 <= k < |held| && held[k].start <= i <= held[k].end
  }

  ghost predicate OneRun(h: Held, positions: seq<real>, from: nat)
    requires InBounds(h, |positions|)
  {
    && Sign(positions[h.start]) != 0
    && (forall i :: h.start <= i <= h.end ==> Sign(positions[i]) == Sign(positions[h.start]))
    && (h.start > from ==> Sign(positions[h.start - 1]) != Sign(positions[h.start]))
    && (h.end + 1 < |positions| ==> Sign(positions[h.end + 1]) != Sign(positions[h.end]))
  }

  /** A bar that is flat changes nothing about how the rest is cut. */
  lemma SkipFlat(held: seq<Held>, positions: seq<real>, i: nat)
    requires i < |positions| && Sign(positions[i]) == 0
    ensures Partitions(held, positions, i) <==> Partitions(held, positions, i + 1)
  {
    hide Sign;
    if Partitions(held, positions, i) {
      forall k | 0 <= k < |held| ensures i + 1 <= held[k].start && OneRun(held[k], positions, i + 1) {}
    }
    if Partitions(held, positions, i + 1) {
      forall k | 0 <= k < |held| ensures OneRun(held[k], positions, i) {
        assert OneRun(held[k], positions, i + 1);
      }
    }
  }

  lemma Stands(positions: seq<real>, i: nat)
    requires i < |positions| && Sign(positions[i]) != 0
    ensures var e := RunEnd(positions, i, Sign(positions[i])); e > i && OneRun(Held(i, e - 1), positions, i)
  {
    hide Sign;
  }

  lemma Widen(h: Held, positions: seq<real>, i: nat, e: nat)
    requires InBounds(h, |positions|) && OneRun(h, positions, e) && i <= e <= h.start
    requires 0 < e < |positions| ==> Sign(positions[e - 1]) != Sign(positions[e])
    ensures OneRun(h, positions, i)
  {
    hide Sign;
  }

  /** The run that stands at `i` comes first, and the rest is cut from where it stops. */
  lemma TakeRun(h: Held, rest: seq<Held>, positions: seq<real>, i: nat)
    requires i < |positions| && Sign(positions[i]) != 0 && h == Held(i, RunEnd(positions, i, Sign(positions[i])) - 1)
    requires Partitions(rest, positions, h.end + 1)
    ensures Partitions([h] + rest, positions, i)
  {
    hide Sign, RunEnd, OneRun, Within;
    var held, e := [h] + rest, h.end + 1;
    Stands(positions, i);
    forall k | 0 <= k < |held|
      ensures InBounds(held[k], |positions|) && i <= held[k].start && OneRun(held[k], positions, i)
    {
      if k > 0 {
        assert held[k] == rest[k - 1] && e <= rest[k - 1].start;
        Widen(held[k], positions, i, e);
      }
    }
    forall j | i <= j < |positions| && Sign(positions[j]) != 0 ensures Within(held, j) {
      if j >= e { assert Within(rest, j); }
      WithinMore(h, rest, j);
    }
  }

  lemma WithinMore(h: Held, rest: seq<Held>, j: int)
    ensures Within([h] + rest, j) <==> h.start <= j <= h.end || Within(rest, j)
  {
    var held := [h] + rest;
    if h.start <= j <= h.end { assert held[0] == h; }
    if Within(rest, j) {
      var k :| 0 <= k < |rest| && rest[k].start <= j <= rest[k].end;
      assert held[k + 1] == rest[k];
    }
  }

  /** The walk finds the maximal runs. */
  lemma {:induction false} HeldPartition(positions: seq<real>, i: nat)
    requires i <= |positions|
    ensures Partitions(HeldFrom(positions, i), positions, i)
    decreases |positions| - i
  {
    hide Partitions, Sign;
    if i == |positions| {
      NoRuns([], positions);
    } else if Sign(positions[i]) == 0 {
      HeldPartition(positions, i + 1);
      SkipFlat(HeldFrom(positions, i + 1), positions, i);
    } else {
      var e := RunEnd(positions, i, Sign(positions[i]));
      HeldPartition(positions, e);
      TakeRun(Held(i, e - 1), HeldFrom(positions, e), positions, i);
    }
  }

  lemma NoRuns(held: seq<Held>, positions: seq<real>)
    ensures Partitions(held, positions, |positions|) <==> held == []
  {
    if held != [] { assert held[0].start < |positions| || !InBounds(held[0], |positions|); }
  }

  /** A cut into maximal runs starts with the run that stands at the first held bar. */
  lemma FirstRun(held: seq<Held>, positions: seq<real>, i: nat)
    requires i < |positions| && Partitions(held, positions, i) && Sign(positions[i]) != 0
    ensures held != [] && held[0] == Held(i, RunEnd(positions, i, Sign(positions[i])) - 1)
  {
    hide Sign, RunEnd;
    assert Within(held, i);
    var k :| 0 <= k < |held| && held[k].start <= i <= held[k].end;
    assert OneRun(held[k], positions, i) && OneRun(held[0], positions, i);
    assert k == 0;
    var e := RunEnd(positions, i, Sign(positions[i]));
    assert forall j :: i <= j <= held[0].end ==> Sign(positions[j]) == Sign(positions[i]);
    assert e > i;
  }

  lemma DropRun(held: seq<Held>, positions: seq<real>, i: nat)
    requires i < |positions| && Partitions(held, positions, i) && Sign(positions[i]) != 0
    requires held != [] && held[0] == Held(i, RunEnd(positions, i, Sign(positions[i])) - 1)
    ensures Partitions(held[1..], positions, held[0].end + 1)
  {
    hide Sign, RunEnd, OneRun, Within;
    var rest, e := held[1..], held[0].end + 1;
    assert held == [held[0]] + rest;
    forall k | 0 <= k < |rest|
      ensures InBounds(rest[k], |positions|) && e <= rest[k].start && OneRun(rest[k], positions, e)
    {
      assert rest[k] == held[k + 1] && held[0].end < held[k + 1].start;
      Narrow(rest[k], positions, i, e);
    }
    forall j | e <= j < |positions| && Sign(positions[j]) != 0 ensures Within(rest, j) {
      WithinMore(held[0], rest, j);
      assert Within(held, j);
    }
  }

  lemma Narrow(h: Held, positions: seq<real>, i: nat, e: nat)
    requires InBounds(h, |positions|) && OneRun(h, positions, i) && i <= e <= h.start
    ensures OneRun(h, positions, e)
  {
    hide Sign;
  }

  /** And there is only one way to cut a series into its maximal runs. */
  lemma {:induction false} PartitionUnique(held: seq<Held>, positions: seq<real>, i: nat)
    requires i <= |positions| && Partitions(held, positions, i)
    ensures held == HeldFrom(positions, i)
    decreases |positions| - i
  {
    hide Partitions, Sign;
    if i == |positions| {
      NoRuns(held, positions);
    } else if Sign(positions[i]) == 0 {
      SkipFlat(held, positions, i);
      PartitionUnique(held, positions, i + 1);
    } else {
      FirstRun(held, positions, i);
      DropRun(held, positions, i);
      PartitionUnique(held[1..], positions, held[0].end + 1);
    }
  }

  /** One trip per run. */
  ghost predicate TripsOf(
      trips: seq<Trip>, held: seq<Held>, times: seq<int>, closes: seq<real>, positions: seq<real>, net: seq<real>)
  {
    && |times| == |closes| == |positions| == |net| && |trips| == |held|
    && forall k :: 0 <= k < |held| ==>
      InBounds(held[k], |times|) && trips[k] == TripOf(held[k], times, closes, positions, net)
  }

  /** `trips` are those of the first runs of the series, and the runs from bar `i` on are still to come. */
  ghost predicate Extracted(
      trips: seq<Trip>, held: seq<Held>, i: nat, times: seq<int>, closes: seq<real>, positions: seq<real>,
      net: seq<real>)
  {
    TripsOf(trips, held, times, closes, positions, net) && i <= |positions| &&
    held + HeldFrom(positions, i) == HeldFrom(positions, 0)
  }

  lemma MoreTrips(
      trips: seq<Trip>, held: seq<Held>, h: Held, times: seq<int>, closes: seq<real>, positions: seq<real>,
      net: seq<real>)
    requires TripsOf(trips, held, times, closes, positions, net) && InBounds(h, |times|)
    ensures TripsOf(trips + [TripOf(h, times, closes, positions, net)], held + [h], times, closes, positions, net)
  {
    hide TripOf;
  }

  lemma HeldStep(positions: seq<real>, i: nat)
    requires i < |positions| && Sign(positions[i]) != 0
    ensures var e := RunEnd(positions, i, Sign(positions[i]));
      e > i && HeldFrom(positions, i) == [Held(i, e - 1)] + HeldFrom(positions, e)
  {
    hide Sign;
  }

  lemma ExtractStep(
      trips: seq<Trip>, held: seq<Held>, i: nat, times: seq<int>, closes: seq<real>, positions: seq<real>,
      net: seq<real>)
    requires Extracted(trips, held, i, times, closes, positions, net) && i < |positions| && Sign(positions[i]) != 0
    ensures var e := RunEnd(positions, i, Sign(positions[i])); var h := Held(i, e - 1);
      |times| == |closes| == |positions| == |net| && InBounds(h, |times|) &&
      Extracted(trips + [TripOf(h, times, closes, positions, net)], held + [h], e, times, closes, positions, net)
  {
    hide Sign, RunEnd, TripOf, HeldFrom, OneRun;
    Stands(positions, i);
    var e := RunEnd(positions, i, Sign(positions[i]));
    HeldStep(positions, i);
    MoreTrips(trips, held, Held(i, e - 1), times, closes, positions, net);
    assert held + ([Held(i, e - 1)] + HeldFrom(positions, e)) == held + [Held(i, e - 1)] + HeldFrom(positions, e);
  }

  /** Walks the position series and builds one trip per maximal run. */
  method ExtractTrades(
      closes: seq<real>, positions: seq<real>, net: seq<real>, times: seq<int>) returns (trips: seq<Trip>)
    requires |times| == |closes| == |positions| == |net|
    ensures TripsOf(trips, HeldFrom(positions, 0), times, closes, positions, net)
  {
    hide Growth, Extracted, HeldFrom, TripsOf;
    trips := [];
    ghost var held: seq<Held> := [];
    var i := 0;
    NothingExtracted(times, closes, positions, net);
    while i < |positions|
      invariant 0 <= i <= |positions| && Extracted(trips, held, i, times, closes, positions, net)
    {
      if positions[i] == 0.0 {
        FlatStep(trips, held, i, times, closes, positions, net);
        i := i + 1;
        continue;
      }
      var side := if positions[i] > 0.0 then 1 else -1;
      var start := i;
      while i < |positions| && (positions[i] > 0.0) == (side > 0) && positions[i] != 0.0
        invariant start <= i <= |positions|
        invariant RunEnd(positions, i, side) == RunEnd(positions, start, side)
      {
        i := i + 1;
      }
      var end := i - 1;
      ExtractStep(trips, held, start, times, closes, positions, net);
      var entry := if start > 0 then closes[start - 1] else closes[start];
      trips := trips + [Trip(times[start], times[end], side, entry, closes[end], Growth(net[start..end + 1]) - 1.0,
                             end - start + 1, end == |positions| - 1)];
      held := held + [Held(start, end)];
    }
    AllExtracted(trips, held, times, closes, positions, net);
  }

  lemma NothingExtracted(times: seq<int>, closes: seq<real>, positions: seq<real>, net: seq<real>)
    requires |times| == |closes| == |positions| == |net|
    ensures Extracted([], [], 0, times, closes, positions, net)
  {
    assert [] + HeldFrom(positions, 0) == HeldFrom(positions, 0);
  }

  lemma FlatStep(
      trips: seq<Trip>, held: seq<Held>, i: nat, times: seq<int>, closes: seq<real>, positions: seq<real>,
      net: seq<real>)
    requires Extracted(trips, held, i, times, closes, positions, net) && i < |positions| && Sign(positions[i]) == 0
    ensures Extracted(trips, held, i + 1, times, closes, positions, net)
  {}

  lemma AllExtracted(
      trips: seq<Trip>, held: seq<Held>, times: seq<int>, closes: seq<real>, positions: seq<real>, net: seq<real>)
    requires |times| == |closes| == |positions| == |net| &&
      Extracted(trips, held, |positions|, times, closes, positions, net)
    ensures TripsOf(trips, HeldFrom(positions, 0), times, closes, positions, net)
  {
    assert held + [] == held;
  }

  predicate SortedTimes(bars: seq<Bar>) {
    forall i, j :: 0 <= i < j < |bars| ==> bars[i].time <= bars[j].time
  }

  function Closes(bars: seq<Bar>): seq<real>
    requires forall i :: 0 <= i < |bars| ==> bars[i].close.Some?
  {
    seq(|bars|, i requires 0 <= i < |bars| => bars[i].close.value)
  }

  function Times(bars: seq<Bar>): seq<int> {
    seq(|bars|, i requires 0 <= i < |bars| => bars[i].time)
  }

  /** Runs a strategy's signals over the bars. */
  method RunBacktest(
      bars: seq<Bar>, signals: seq<Option<real>>, feeBps: real, slippageBps: real, capital: real)
    returns (outcome: Outcome)
    requires |signals| == |bars|
    requires forall i :: 0 < i < |bars| && bars[i - 1].close == Some(0.0) && bars[i].close.Some? ==>
      bars[i].close == Some(0.0)
    ensures outcome == Failed(EmptyData) <==> bars == []
    ensures outcome == Failed(UnsortedIndex) <==> bars != [] && !SortedTimes(bars)
    ensures outcome == Failed(MissingClose) <==>
      bars != [] && SortedTimes(bars) && exists i :: 0 <= i < |bars| && bars[i].close.None?
    ensures outcome.Ok? ==>
      var closes, positions := Closes(bars), Positions(signals);
        var net := Nets(closes, positions, CostRate(feeBps, slippageBps));
      outcome.positions == positions && outcome.net == net && outcome.equity == Equity(net, capital) &&
      TripsOf(outcome.trips, HeldFrom(positions, 0), Times(bars), closes, positions, net)
  {
    if |bars| == 0 {
      return Failed(EmptyData);
    }
    if !SortedTimes(bars) {
      return Failed(UnsortedIndex);
    }
    if exists i :: 0 <= i < |bars| && bars[i].close.None? {
      return Failed(MissingClose);
    }
    var closes, positions := Closes(bars), Positions(signals);
    var net := Nets(closes, positions, CostRate(feeBps, slippageBps));
    var trips := ExtractTrades(closes, positions, net, Times(bars));
    outcome := Ok(Equity(net, capital), net, positions, trips);
  }
}
