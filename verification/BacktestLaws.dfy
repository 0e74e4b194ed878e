/**
 * What the backtester's output means: trades and flat bars compound to the curve, ruin is final, nothing looks ahead.
 */
module BacktestLaws {
  import opened Schemas
  import opened Backtest

  // ---------- compounding ----------

  lemma Associate(a: real, b: real, c: real)
    ensures (a * b) * c == a * (b * c)
  {}

  lemma {:induction false} GrowthAppend(a: seq<real>, b: seq<real>)
    ensures Growth(a + b) == Growth(a) * Growth(b)
  {
    if b == [] {
      assert a + b == a;
    } else {
      var n := |b| - 1;
      assert (a + b)[..|a + b| - 1] == a + b[..n] && (a + b)[|a + b| - 1] == b[n];
      GrowthAppend(a, b[..n]);
      Associate(Growth(a), Growth(b[..n]), 1.0 + b[n]);
    }
  }

  lemma GrowthOne(x: real)
    ensures Growth([x]) == 1.0 + x
  {
    assert [x][..0] == [];
  }

  predicate Floored(net: seq<real>) {
    forall i :: 0 <= i < |net| ==> net[i] >= -1.0
  }

  lemma NonNegative(a: real, b: real)
    requires a >= 0.0 && b >= 0.0
    ensures a * b >= 0.0 && (a * b == 0.0 <==> a == 0.0 || b == 0.0)
  {}

  /**
   * With every loss floored at 100% the growth is never negative, and it is zero just when some bar lost everything.
   */
  lemma {:induction false} GrowthFloored(net: seq<real>)
    requires Floored(net)
    ensures Growth(net) >= 0.0 && (Growth(net) == 0.0 <==> -1.0 in net)
  {
    if net != [] {
      var n := |net| - 1;
      GrowthFloored(net[..n]);
      NonNegative(Growth(net[..n]), 1.0 + net[n]);
      assert net == net[..n] + [net[n]];
    }
  }

  /** Equity keeps the sign of the capital, is zero exactly from the first wiped-out bar on, and never recovers. */
  lemma RuinIsFinal(closes: seq<real>, positions: seq<real>, rate: real, capital: real, i: nat, j: nat)
    requires |closes| == |positions| && Priced(closes) && i <= j < |closes|
    ensures var net := Nets(closes, positions, rate); var equity := Equity(net, capital);
      (capital >= 0.0 ==> equity[i] >= 0.0) && (capital <= 0.0 ==> equity[i] <= 0.0) &&
      (capital != 0.0 ==> (equity[i] == 0.0 <==> -1.0 in net[..i + 1])) && (equity[i] == 0.0 ==> equity[j] == 0.0)
  {
    hide Net, Growth;
    var net := Nets(closes, positions, rate);
    var before, after := net[..i + 1], net[..j + 1];
    GrowthFloored(before);
    GrowthFloored(after);
    Scaled(Growth(before), capital);
    Scaled(Growth(after), capital);
    assert after[..i + 1] == before;
    if -1.0 in before {
      var k :| 0 <= k < |before| && before[k] == -1.0;
      assert after[k] == -1.0;
    }
  }

  lemma Scaled(a: real, c: real)
    requires a >= 0.0
    ensures (c >= 0.0 ==> a * c >= 0.0) && (c <= 0.0 ==> a * c <= 0.0) && (a * c == 0.0 <==> a == 0.0 || c == 0.0)
  {
    NonNegative(a, if c < 0.0 then -c else c);
    if c < 0.0 { assert a * c == -(a * -c); }
  }

  // ---------- trades and flat bars ----------

  function TripGrowth(held: seq<Held>, net: seq<real>): real
    requires AllInBounds(held, |net|)
  {
    if held == [] then 1.0
    else assert InBounds(held[0], |net|); Growth(net[held[0].start..held[0].end + 1]) * TripGrowth(held[1..], net)
  }

  /** What the bars outside every trade compound to, from bar `i` on. */
  function FlatGrowth(positions: seq<real>, net: seq<real>, i: nat): real
    requires |positions| == |net| && i <= |net|
    decreases |net| - i
  {
    if i == |net| then 1.0
    else (if Sign(positions[i]) == 0 then 1.0 + net[i] else 1.0) * FlatGrowth(positions, net, i + 1)
  }

  lemma {:induction false} HeldBounds(positions: seq<real>, i: nat)
    requires i <= |positions|
    ensures AllInBounds(HeldFrom(positions, i), |positions|)
  {
    HeldPartition(positions, i);
  }

  lemma {:induction false} FlatSkips(positions: seq<real>, net: seq<real>, i: nat, e: nat)
    requires |positions| == |net| && i <= e <= |net| && forall j :: i <= j < e ==> Sign(positions[j]) != 0
    ensures FlatGrowth(positions, net, i) == FlatGrowth(positions, net, e)
    decreases e - i
  {
    hide Sign;
    if i < e { FlatSkips(positions, net, i + 1, e); }
  }

  lemma Swap(a: real, b: real, c: real)
    ensures a * (b * c) == b * (a * c)
  {}

  /** The growth from any bar on is that of the trades times that of the flat bars. */
  lemma {:induction false} GrowthSplits(positions: seq<real>, net: seq<real>, i: nat)
    requires |positions| == |net| && i <= |net| && AllInBounds(HeldFrom(positions, i), |net|)
    ensures Growth(net[i..]) == TripGrowth(HeldFrom(positions, i), net) * FlatGrowth(positions, net, i)
    decreases |net| - i
  {
    hide Growth, Sign, RunEnd, TripGrowth, InBounds, HeldFrom;
    if i == |net| {
      NoGrowth(positions, net);
    } else if Sign(positions[i]) == 0 {
      FlatBar(positions, i);
      GrowthSplits(positions, net, i + 1);
      assert net[i..] == [net[i]] + net[i + 1..];
      GrowthAppend([net[i]], net[i + 1..]);
      GrowthOne(net[i]);
      Swap(1.0 + net[i], TripGrowth(HeldFrom(positions, i + 1), net), FlatGrowth(positions, net, i + 1));
    } else {
      HeldStep(positions, i);
      var e := RunEnd(positions, i, Sign(positions[i]));
      var held, rest := HeldFrom(positions, i), HeldFrom(positions, e);
      RestInBounds(held, rest, |net|);
      GrowthSplits(positions, net, e);
      FlatSkips(positions, net, i, e);
      assert net[i..] == net[i..e] + net[e..];
      GrowthAppend(net[i..e], net[e..]);
      TripStep(Held(i, e - 1), rest, net);
      Associate(Growth(net[i..e]), TripGrowth(rest, net), FlatGrowth(positions, net, e));
    }
  }

  lemma RestInBounds(held: seq<Held>, rest: seq<Held>, n: nat)
    requires AllInBounds(held, n) && held != [] && held == [held[0]] + rest
    ensures AllInBounds(rest, n) && InBounds(held[0], n)
  {
    assert forall k :: 0 <= k < |rest| ==> rest[k] == held[k + 1];
  }

  lemma PutInBounds(h: Held, rest: seq<Held>, n: nat)
    requires InBounds(h, n) && AllInBounds(rest, n)
    ensures AllInBounds([h] + rest, n)
  {}

  lemma TripStep(h: Held, rest: seq<Held>, net: seq<real>)
    requires InBounds(h, |net|) && AllInBounds(rest, |net|)
    ensures AllInBounds([h] + rest, |net|) &&
      TripGrowth([h] + rest, net) == Growth(net[h.start..h.end + 1]) * TripGrowth(rest, net)
  {
    hide Growth, AllInBounds;
    var held := [h] + rest;
    PutInBounds(h, rest, |net|);
    assert held != [] && held[0] == h && held[1..] == rest;
  }

  lemma NoGrowth(positions: seq<real>, net: seq<real>)
    requires |positions| == |net|
    ensures Growth(net[|net|..]) == 1.0 && HeldFrom(positions, |net|) == [] && TripGrowth([], net) == 1.0
  {}

  lemma FlatBar(positions: seq<real>, i: nat)
    requires i < |positions| && Sign(positions[i]) == 0
    ensures HeldFrom(positions, i) == HeldFrom(positions, i + 1)
  {}

  /** The same product, read off the trades the backtest reports. */
  function Compounded(trips: seq<Trip>): real {
    if trips == [] then 1.0 else (1.0 + trips[0].returnPct) * Compounded(trips[1..])
  }

  lemma {:induction false} TripsCompound(
      trips: seq<Trip>, held: seq<Held>, times: seq<int>, closes: seq<real>, positions: seq<real>, net: seq<real>)
    requires TripsOf(trips, held, times, closes, positions, net)
    ensures AllInBounds(held, |net|) && Compounded(trips) == TripGrowth(held, net)
  {
    hide Growth;
    if trips != [] {
      assert forall k :: 0 <= k < |held[1..]| ==> held[1..][k] == held[k + 1] && trips[1..][k] == trips[k + 1];
      TripsCompound(trips[1..], held[1..], times, closes, positions, net);
    }
  }

  /** Some held bar from bar `i` on lost everything. */
  ghost predicate HeldWipe(positions: seq<real>, net: seq<real>, i: nat)
    requires |positions| == |net|
  {
    exists j :: i <= j < |net| && Sign(positions[j]) != 0 && net[j] == -1.0
  }

  lemma RunHeld(positions: seq<real>, i: nat, e: nat, j: int)
    requires i < |positions| && Sign(positions[i]) != 0 && e == RunEnd(positions, i, Sign(positions[i])) && i <= j < e
    ensures e <= |positions| && Sign(positions[j]) != 0
  {
    hide Sign, RunEnd;
    Stands(positions, i);
  }

  lemma WipeSplits(positions: seq<real>, net: seq<real>, i: nat, e: nat)
    requires |positions| == |net| && i < |net| && Sign(positions[i]) != 0
    requires e == RunEnd(positions, i, Sign(positions[i])) && i < e <= |net|
    ensures HeldWipe(positions, net, i) <==> -1.0 in net[i..e] || HeldWipe(positions, net, e)
  {
    hide Sign, RunEnd;
    if -1.0 in net[i..e] {
      var k :| 0 <= k < |net[i..e]| && net[i..e][k] == -1.0;
      RunHeld(positions, i, e, i + k);
      assert net[i + k] == -1.0;
    }
    if j :| i <= j < |net| && Sign(positions[j]) != 0 && net[j] == -1.0 {
      if j < e { assert net[i..e][j - i] == -1.0; }
    }
  }

  /** The trades compound to nothing exactly when some held bar lost everything. */
  lemma {:induction false} TripsWiped(positions: seq<real>, net: seq<real>, i: nat)
    requires |positions| == |net| && i <= |net| && Floored(net) && AllInBounds(HeldFrom(positions, i), |net|)
    ensures var g := TripGrowth(HeldFrom(positions, i), net);
      g >= 0.0 && (g == 0.0 <==> HeldWipe(positions, net, i))
    decreases |net| - i
  {
    hide Growth, Sign, RunEnd, TripGrowth, InBounds, HeldFrom;
    if i == |net| {
      NoGrowth(positions, net);
    } else if Sign(positions[i]) == 0 {
      FlatBar(positions, i);
      TripsWiped(positions, net, i + 1);
    } else {
      HeldStep(positions, i);
      var e := RunEnd(positions, i, Sign(positions[i]));
      var held, rest := HeldFrom(positions, i), HeldFrom(positions, e);
      RestInBounds(held, rest, |net|);
      TripsWiped(positions, net, e);
      TripStep(Held(i, e - 1), rest, net);
      GrowthFloored(net[i..e]);
      WipeSplits(positions, net, i, e);
      NonNegative(Growth(net[i..e]), TripGrowth(rest, net));
    }
  }

  lemma LastEquity(net: seq<real>, capital: real)
    requires net != []
    ensures Equity(net, capital)[|net| - 1] == Growth(net) * capital
  {
    hide Equity, Growth;
    assert net[..|net| - 1 + 1] == net;
  }

  /** Final equity over capital is the trades' returns compounded with the flat bars' own. */
  lemma TradesAndFlatsMakeTheCurve(
      trips: seq<Trip>, times: seq<int>, closes: seq<real>, positions: seq<real>, net: seq<real>, capital: real)
    requires TripsOf(trips, HeldFrom(positions, 0), times, closes, positions, net) && |positions| == |net| > 0
    ensures Equity(net, capital)[|net| - 1] == Compounded(trips) * FlatGrowth(positions, net, 0) * capital
  {
    hide *;
    HeldBounds(positions, 0);
    TripsCompound(trips, HeldFrom(positions, 0), times, closes, positions, net);
    GrowthSplits(positions, net, 0);
    assert net[0..] == net;
    LastEquity(net, capital);
  }

  // ---------- when the trades alone make the curve ----------

  /** The position was closed out going into bar `i`: the bar is flat and pays for the exit. */
  predicate ExitBar(positions: seq<real>, i: nat)
    requires i < |positions|
  {
    i > 0 && Sign(positions[i]) == 0 && Sign(positions[i - 1]) != 0
  }

  lemma FlatBarCost(closes: seq<real>, positions: seq<real>, rate: real, i: nat)
    requires |closes| == |positions| && Priced(closes) && i < |positions| && Sign(positions[i]) == 0 &&
      (i == 0 ==> positions[0] == 0.0)
    ensures Net(closes, positions, rate, i) == Max(-1.0, -(Turnover(positions, i) * rate))
    ensures Turnover(positions, i) >= 0.0 && (Turnover(positions, i) > 0.0 <==> ExitBar(positions, i))
  {
    hide NetOf, BarReturn;
    FlatNet(BarReturn(closes, i), Turnover(positions, i), rate);
  }

  lemma FlatNet(barReturn: real, turnover: real, rate: real)
    ensures NetOf(0.0, barReturn, turnover, rate) == Max(-1.0, -(turnover * rate))
  {}

  lemma CostSign(turnover: real, rate: real)
    requires turnover >= 0.0
    ensures var x := Max(-1.0, -(turnover * rate));
      (turnover == 0.0 || rate == 0.0 ==> x == 0.0) && (turnover > 0.0 && rate > 0.0 ==> -1.0 <= x < 0.0) &&
      (turnover > 0.0 && rate < 0.0 ==> x > 0.0)
  {
    if turnover > 0.0 && rate != 0.0 {
      var p := turnover * (if rate > 0.0 then rate else -rate);
      NonNegative(turnover, if rate > 0.0 then rate else -rate);
      assert turnover * rate == if rate > 0.0 then p else -p;
    }
  }

  lemma Shrinks(a: real, b: real)
    requires 0.0 <= a <= 1.0 && 0.0 <= b <= 1.0
    ensures 0.0 <= a * b <= 1.0 && (a * b == 1.0 <==> a == 1.0 && b == 1.0)
  {
    if a < 1.0 {
      NonNegative(1.0 - a, b);
      assert (1.0 - a) * b == b - a * b;
      NonNegative(a, b);
    }
  }

  lemma Grows(a: real, b: real)
    requires 1.0 <= a && 1.0 <= b
    ensures 1.0 <= a * b && (a * b == 1.0 <==> a == 1.0 && b == 1.0)
  {
    NonNegative(a - 1.0, b - 1.0);
    assert (a - 1.0) * (b - 1.0) == a * b - a - b + 1.0;
  }

  ghost predicate NoExits(positions: seq<real>, i: nat) {
    forall j :: i <= j < |positions| ==> !ExitBar(positions, j)
  }

  /** The flat bars compound to one exactly when no exit cost falls on them. */
  lemma {:induction false} FlatsAreNeutral(closes: seq<real>, positions: seq<real>, rate: real, i: nat)
    requires |closes| == |positions| && Priced(closes) && i <= |positions| && (positions != [] ==> positions[0] == 0.0)
    ensures var g := FlatGrowth(positions, Nets(closes, positions, rate), i);
      (rate >= 0.0 ==> 0.0 <= g <= 1.0) && (rate <= 0.0 ==> g >= 1.0) &&
      (g == 1.0 <==> rate == 0.0 || NoExits(positions, i))
    decreases |positions| - i
  {
    hide Net, Sign, Turnover;
    if i < |positions| {
      var net := Nets(closes, positions, rate);
      var rest := FlatGrowth(positions, net, i + 1);
      FlatsAreNeutral(closes, positions, rate, i + 1);
      assert NoExits(positions, i) <==> NoExits(positions, i + 1) && !ExitBar(positions, i);
      var factor := if Sign(positions[i]) == 0 then 1.0 + net[i] else 1.0;
      assert FlatGrowth(positions, net, i) == factor * rest;
      if Sign(positions[i]) == 0 {
        FlatBarCost(closes, positions, rate, i);
        CostSign(Turnover(positions, i), rate);
      }
      if rate >= 0.0 { Shrinks(factor, rest); }
      if rate <= 0.0 { Grows(factor, rest); }
    }
  }

  lemma NetsFloored(closes: seq<real>, positions: seq<real>, rate: real)
    requires |closes| == |positions| && Priced(closes)
    ensures Floored(Nets(closes, positions, rate)) && |Nets(closes, positions, rate)| == |positions|
  {}

  /**
   * The documented tie-out of trades to the equity curve holds exactly when a held bar lost everything, trading is
   * free, or the position never returns to flat: the cost of an exit falls on the first flat bar, outside every trade.
   */
  lemma TradesTieOutIff(
      trips: seq<Trip>, times: seq<int>, closes: seq<real>, positions: seq<real>, rate: real, capital: real)
    requires |closes| == |positions| && Priced(closes) && positions != [] && positions[0] == 0.0 && capital > 0.0
    requires TripsOf(trips, HeldFrom(positions, 0), times, closes, positions, Nets(closes, positions, rate))
    ensures var net := Nets(closes, positions, rate);
      Equity(net, capital)[|positions| - 1] == Compounded(trips) * capital <==>
      HeldWipe(positions, net, 0) || rate == 0.0 || NoExits(positions, 0)
  {
    hide *;
    var net := Nets(closes, positions, rate);
    HeldBounds(positions, 0);
    TripsCompound(trips, HeldFrom(positions, 0), times, closes, positions, net);
    NetsFloored(closes, positions, rate);
    TripsWiped(positions, net, 0);
    TradesAndFlatsMakeTheCurve(trips, times, closes, positions, Nets(closes, positions, rate), capital);
    FlatsAreNeutral(closes, positions, rate, 0);
    Cancel(Compounded(trips), FlatGrowth(positions, Nets(closes, positions, rate), 0), capital);
  }

  /**
   * One bar held and left: the exit at a tenth of a percent falls on the flat bar after the trade, and the two differ.
   */
  lemma ExitCostIsOutsideTheTrade(trips: seq<Trip>, times: seq<int>)
    requires |times| == 4
    ensures var signals, closes := [Some(1.0), Some(0.0), Some(0.0), Some(0.0)], [100.0, 100.0, 100.0, 100.0];
      var positions := Positions(signals); var net := Nets(closes, positions, 0.001);
      positions == [0.0, 1.0, 0.0, 0.0] && (TripsOf(trips, HeldFrom(positions, 0), times, closes, positions, net) ==>
        Equity(net, 1000.0)[3] != Compounded(trips) * 1000.0)
  {
    hide Growth, Equity, Nets;
    var signals, closes := [Some(1.0), Some(0.0), Some(0.0), Some(0.0)], [100.0, 100.0, 100.0, 100.0];
    var positions := Positions(signals);
    assert positions == [0.0, 1.0, 0.0, 0.0];
    assert RunEnd(positions, 1, 1) == 2 && HeldFrom(positions, 2) == [] && HeldFrom(positions, 0) == [Held(1, 1)];
    var net := Nets(closes, positions, 0.001);
    if TripsOf(trips, HeldFrom(positions, 0), times, closes, positions, net) {
      FirstTrip(trips, times, closes, positions, net);
      assert ExitBar(positions, 2);
      TradesTieOutIff(trips, times, closes, positions, 0.001, 1000.0);
    }
  }

  lemma FirstTrip(trips: seq<Trip>, times: seq<int>, closes: seq<real>, positions: seq<real>, net: seq<real>)
    requires TripsOf(trips, [Held(1, 1)], times, closes, positions, net)
    requires |closes| == 4 && Priced(closes) && closes[0] == closes[1] == 100.0 && positions == [0.0, 1.0, 0.0, 0.0] &&
      net == Nets(closes, positions, 0.001)
    ensures Compounded(trips) == 0.999
  {
    assert net[1..2] == [net[1]];
    GrowthOne(net[1]);
    assert BarReturn(closes, 1) == 0.0 && Turnover(positions, 1) == 1.0;
    assert net[1] == NetOf(1.0, 0.0, 1.0, 0.001) == -0.001;
    assert trips[1..] == [];
  }

  lemma Cancel(a: real, b: real, c: real)
    requires c > 0.0
    ensures a * b * c == a * c <==> a == 0.0 || b == 1.0
  {
    var d := a * (b - 1.0);
    assert a * b * c - a * c == d * c;
    if a != 0.0 && b != 1.0 {
      assert d != 0.0;
      assert d * c != 0.0;
    }
  }

  // ---------- a trade held in full, for free, earns its price change ----------

  lemma {:induction false} PriceTelescopes(closes: seq<real>, positions: seq<real>, start: nat, end: nat)
    requires |closes| == |positions| && (forall i :: 0 <= i < |closes| ==> closes[i] > 0.0)
    requires 0 < start <= end <= |closes| && forall i :: start <= i < end ==> positions[i] == 1.0
    ensures Priced(closes) && Growth(Nets(closes, positions, 0.0)[start..end]) == closes[end - 1] / closes[start - 1]
    decreases end - start
  {
    hide Net;
    var net := Nets(closes, positions, 0.0);
    if start == end {
      SameOverSame(closes[start - 1]);
      assert net[start..end] == [];
    } else {
      PriceTelescopes(closes, positions, start, end - 1);
      assert net[start..end][..end - start - 1] == net[start..end - 1];
      LongBar(closes, positions, end - 1);
      Chain(closes[end - 2], closes[start - 1], closes[end - 1]);
    }
  }

  lemma SameOverSame(x: real)
    requires x > 0.0
    ensures x / x == 1.0
  {}

  lemma LongBar(closes: seq<real>, positions: seq<real>, i: nat)
    requires |closes| == |positions| && Priced(closes) && 0 < i < |closes| && positions[i] == 1.0 && closes[i] > 0.0 &&
      closes[i - 1] > 0.0
    ensures Net(closes, positions, 0.0, i) == closes[i] / closes[i - 1] - 1.0
  {}

  lemma Chain(a: real, b: real, c: real)
    requires a > 0.0 && b > 0.0
    ensures (a / b) * (1.0 + (c / a - 1.0)) == c / b
  {
    assert (a / b) * (c / a) == c / b;
  }

  /** A trade fully long at no cost returns exactly its exit price over its entry price. */
  lemma FullLongReturn(h: Held, times: seq<int>, closes: seq<real>, positions: seq<real>)
    requires |times| == |closes| == |positions| && InBounds(h, |closes|) && h.start > 0 &&
      forall i :: 0 <= i < |closes| ==> closes[i] > 0.0
    requires forall i :: h.start <= i <= h.end ==> positions[i] == 1.0
    ensures Priced(closes)
    ensures var trip := TripOf(h, times, closes, positions, Nets(closes, positions, 0.0));
      1.0 + trip.returnPct == trip.exitPrice / trip.entryPrice
  {
    PriceTelescopes(closes, positions, h.start, h.end + 1);
  }

  // ---------- nothing looks ahead ----------

  ghost predicate SameUpTo(a: seq<real>, b: seq<real>, i: nat) {
    i < |a| && i < |b| && forall j :: 0 <= j <= i ==> a[j] == b[j]
  }

  lemma SamePositions(signals: seq<Option<real>>, signals': seq<Option<real>>, i: nat)
    requires i < |signals| && i < |signals'| && forall j :: 0 <= j < i ==> signals[j] == signals'[j]
    ensures SameUpTo(Positions(signals), Positions(signals'), i)
  {
    hide Target;
  }

  lemma SameNets(closes: seq<real>, closes': seq<real>, positions: seq<real>, positions': seq<real>, rate: real, i: nat)
    requires |closes| == |positions| && |closes'| == |positions'| && Priced(closes) && Priced(closes')
    requires SameUpTo(closes, closes', i) && SameUpTo(positions, positions', i)
    ensures SameUpTo(Nets(closes, positions, rate), Nets(closes', positions', rate), i)
  {
    hide Net;
    forall j | 0 <= j <= i ensures Net(closes, positions, rate, j) == Net(closes', positions', rate, j) {
      SameNet(closes, closes', positions, positions', rate, j);
    }
  }

  lemma SameNet(closes: seq<real>, closes': seq<real>, positions: seq<real>, positions': seq<real>, rate: real, j: nat)
    requires |closes| == |positions| && |closes'| == |positions'| && Priced(closes) && Priced(closes')
    requires SameUpTo(closes, closes', j) && SameUpTo(positions, positions', j)
    ensures Net(closes, positions, rate, j) == Net(closes', positions', rate, j)
  {
    hide Abs, NetOf;
    var before: nat := if j > 0 then j - 1 else 0;
    assert closes[j] == closes'[j] && closes[before] == closes'[before];
    assert positions[j] == positions'[j] && positions[before] == positions'[before];
    SameReturn(closes, closes', j);
    assert Turnover(positions, j) == Turnover(positions', j);
  }

  lemma SameReturn(closes: seq<real>, closes': seq<real>, j: nat)
    requires Priced(closes) && Priced(closes') && SameUpTo(closes, closes', j)
    ensures BarReturn(closes, j) == BarReturn(closes', j)
  {
    if j > 0 {
      var a, b := closes[j], closes[j - 1];
      assert closes'[j] == a && closes'[j - 1] == b;
    }
  }

  /**
   * Two histories that agree on the signals before bar i and the closes up to it hold and earn the same up to bar i.
   */
  lemma NoLookahead(
      closes: seq<real>, closes': seq<real>, signals: seq<Option<real>>, signals': seq<Option<real>>, rate: real,
      capital: real, i: nat)
    requires |closes| == |signals| && |closes'| == |signals'| && Priced(closes) && Priced(closes')
    requires SameUpTo(closes, closes', i) && forall j :: 0 <= j < i ==> signals[j] == signals'[j]
    ensures |Positions(signals)| == |closes| && |Positions(signals')| == |closes'|
    ensures SameUpTo(Positions(signals), Positions(signals'), i)
    ensures SameUpTo(Equity(Nets(closes, Positions(signals), rate), capital),
      Equity(Nets(closes', Positions(signals'), rate), capital), i)
  {
    SamePositions(signals, signals', i);
    SameNets(closes, closes', Positions(signals), Positions(signals'), rate, i);
    SameEquity(Nets(closes, Positions(signals), rate), Nets(closes', Positions(signals'), rate), capital, i);
  }

  lemma SameEquity(net: seq<real>, net': seq<real>, capital: real, i: nat)
    requires SameUpTo(net, net', i)
    ensures SameUpTo(Equity(net, capital), Equity(net', capital), i)
  {
    hide Growth, Equity;
    forall j | 0 <= j <= i ensures Equity(net, capital)[j] == Equity(net', capital)[j] {
      assert net[..j + 1] == net'[..j + 1];
    }
  }
}
