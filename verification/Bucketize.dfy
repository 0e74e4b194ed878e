/** Equity change per time bucket, and how far the buckets telescope to a pass's total PnL. */
module Bucketize {
  import opened Schemas
  import E = EngineState

  datatype Bucket = Bucket(tStart: int, pnl: real, fills: nat)

  const NOTHING := E.Ledger(0.0, 0.0, 0.0, 0.0)

  // ---------- what the loop computes with ----------

  function InsertByTime(f: Fill, fills: seq<Fill>): seq<Fill> {
    if fills == [] || f.tMs <= fills[0].tMs then [f] + fills else [fills[0]] + InsertByTime(f, fills[1..])
  }

  function SortByTime(fills: seq<Fill>): seq<Fill> {
    if fills == [] then [] else InsertByTime(fills[0], SortByTime(fills[1..]))
  }

  ghost predicate InTimeOrder(fills: seq<Fill>) {
    forall i, j :: 0 <= i < j < |fills| ==> fills[i].tMs <= fills[j].tMs
  }

  /** Every `step` from `start` up to but not including `end`. */
  function Range(start: int, end: int, step: int): (r: seq<int>)
    requires step > 0
    decreases end - start
  {
    if start >= end then [] else [start] + Range(start + step, end, step)
  }

  function Edges(start: int, end: int, step: int): seq<int>
    requires step > 0
  {
    Range(start, end, step) + [end]
  }

  function SumPnl(buckets: seq<Bucket>): real {
    if buckets == [] then 0.0 else SumPnl(buckets[..|buckets| - 1]) + buckets[|buckets| - 1].pnl
  }

  function SumFills(buckets: seq<Bucket>): nat {
    if buckets == [] then 0 else SumFills(buckets[..|buckets| - 1]) + buckets[|buckets| - 1].fills
  }

  /** Cash plus inventory at a mark, from fills alone. */
  function Worth(fills: seq<Fill>, feeBps: real, mark: real): real {
    var l := E.ApplyFills(NOTHING, fills, feeBps);
    l.cash + l.inventory * mark
  }

  function OnTime(fills: seq<Fill>, end: int): seq<Fill> {
    if fills == [] then []
    else if fills[0].tMs <= end then [fills[0]] + OnTime(fills[1..], end) else OnTime(fills[1..], end)
  }

  function Late(fills: seq<Fill>, end: int): seq<Fill> {
    if fills == [] then []
    else if fills[0].tMs <= end then Late(fills[1..], end) else [fills[0]] + Late(fills[1..], end)
  }

  // ---------- sums over fills ----------

  function CashOf(f: Fill, feeBps: real): real {
    (if f.side == Bid then -E.Notional(f) else E.Notional(f)) - E.Notional(f) * feeBps / 10000.0
  }

  function CashSum(fills: seq<Fill>, feeBps: real): real {
    if fills == [] then 0.0 else CashOf(fills[0], feeBps) + CashSum(fills[1..], feeBps)
  }

  function NetSum(fills: seq<Fill>): real {
    if fills == [] then 0.0 else E.Signed(fills[0]) + NetSum(fills[1..])
  }

  lemma {:induction false} SumsSnoc(fills: seq<Fill>, f: Fill, feeBps: real)
    ensures CashSum(fills + [f], feeBps) == CashSum(fills, feeBps) + CashOf(f, feeBps)
    ensures NetSum(fills + [f]) == NetSum(fills) + E.Signed(f)
  {
    hide CashOf, E.Signed;
    if fills == [] { assert fills + [f] == [f] && [f][1..] == []; } else {
      assert (fills + [f])[1..] == fills[1..] + [f];
      SumsSnoc(fills[1..], f, feeBps);
    }
  }

  lemma OneFill(l: E.Ledger, f: Fill, feeBps: real)
    ensures E.ApplyFill(l, f, feeBps).cash == l.cash + CashOf(f, feeBps) &&
      E.ApplyFill(l, f, feeBps).inventory == l.inventory + E.Signed(f)
  {
    hide E.Notional;
  }

  /** The ledger of a sequence of fills is a plain sum. */
  lemma {:induction false} LedgerIsSum(fills: seq<Fill>, feeBps: real)
    ensures var l := E.ApplyFills(NOTHING, fills, feeBps);
      l.cash == CashSum(fills, feeBps) && l.inventory == NetSum(fills)
  {
    hide CashOf, E.Signed, E.ApplyFill;
    if fills != [] {
      var n := |fills| - 1;
      LedgerIsSum(fills[..n], feeBps);
      OneFill(E.ApplyFills(NOTHING, fills[..n], feeBps), fills[n], feeBps);
      SumsSnoc(fills[..n], fills[n], feeBps);
      assert fills == fills[..n] + [fills[n]];
    }
  }

  lemma {:induction false} InsertSums(f: Fill, fills: seq<Fill>, end: int, feeBps: real)
    ensures var s := OnTime(InsertByTime(f, fills), end);
      CashSum(s, feeBps) == CashSum(OnTime([f] + fills, end), feeBps) &&
      NetSum(s) == NetSum(OnTime([f] + fills, end)) &&
      |s| == |OnTime([f] + fills, end)|
  {
    hide CashOf, E.Signed;
    assert ([f] + fills)[1..] == fills;
    if fills != [] && f.tMs > fills[0].tMs {
      InsertSums(f, fills[1..], end, feeBps);
      assert ([f] + fills[1..])[1..] == fills[1..];
      var r := InsertByTime(f, fills[1..]);
      assert ([fills[0]] + r)[1..] == r;
    }
  }

  /** Sorting changes no total. */
  lemma {:induction false} SortSums(fills: seq<Fill>, end: int, feeBps: real)
    ensures var s := OnTime(SortByTime(fills), end);
      CashSum(s, feeBps) == CashSum(OnTime(fills, end), feeBps) && NetSum(s) == NetSum(OnTime(fills, end)) &&
      |s| == |OnTime(fills, end)|
  {
    hide CashOf, E.Signed;
    if fills != [] {
      SortSums(fills[1..], end, feeBps);
      InsertSums(fills[0], SortByTime(fills[1..]), end, feeBps);
      assert ([fills[0]] + SortByTime(fills[1..]))[1..] == SortByTime(fills[1..]);
    }
  }

  lemma {:induction false} InsertOrdered(f: Fill, fills: seq<Fill>)
    requires InTimeOrder(fills)
    ensures InTimeOrder(InsertByTime(f, fills))
    ensures forall x :: x in InsertByTime(f, fills) <==> x == f || x in fills
  {
    if fills != [] && f.tMs > fills[0].tMs {
      InsertOrdered(f, fills[1..]);
      assert fills == [fills[0]] + fills[1..];
      var r := InsertByTime(f, fills[1..]);
      forall j | 0 <= j < |r| ensures fills[0].tMs <= r[j].tMs { assert r[j] in r; }
    }
  }

  lemma {:induction false} SortOrdered(fills: seq<Fill>)
    ensures InTimeOrder(SortByTime(fills))
  {
    if fills != [] {
      SortOrdered(fills[1..]);
      InsertOrdered(fills[0], SortByTime(fills[1..]));
    }
  }

  /** In time order the fills on time are the prefix a cursor has passed. */
  lemma {:induction false} OnTimePrefix(fills: seq<Fill>, end: int, at: nat)
    requires at <= |fills| && InTimeOrder(fills)
    requires forall i :: 0 <= i < at ==> fills[i].tMs <= end
    requires at < |fills| ==> fills[at].tMs > end
    ensures OnTime(fills, end) == fills[..at]
  {
    if fills != [] {
      if at > 0 {
        OnTimePrefix(fills[1..], end, at - 1);
        assert fills[..at] == [fills[0]] + fills[1..][..at - 1];
      } else {
        OnTimePrefix(fills[1..], end, 0);
      }
    }
  }

  lemma EdgesFrom(start: int, end: int, step: int)
    requires step > 0 && start < end
    ensures Edges(start, end, step) ==
            if start + step < end then [start] + Edges(start + step, end, step) else [start, end]
  {
    if start + step >= end {
      assert Range(start + step, end, step) == [];
    }
  }

  lemma {:induction false} EdgesWithin(start: int, end: int, step: int)
    requires step > 0 && start < end
    ensures var edges := Edges(start, end, step);
      && |edges| >= 2 && edges[0] == start && edges[|edges| - 1] == end
      && forall i :: 0 <= i < |edges| ==> edges[i] <= end
    decreases end - start
  {
    hide Edges;
    EdgesFrom(start, end, step);
    if start + step < end {
      EdgesWithin(start + step, end, step);
    }
  }

  // ---------- the loop ----------

  predicate MidsInOrder(mids: seq<(int, real)>) {
    forall i, j :: 0 <= i < j < |mids| ==> mids[i].0 <= mids[j].0
  }

  lemma {:induction false} BucketSnoc(buckets: seq<Bucket>, b: Bucket)
    ensures SumPnl(buckets + [b]) == SumPnl(buckets) + b.pnl && SumFills(buckets + [b]) == SumFills(buckets) + b.fills
  {
    assert (buckets + [b])[..|buckets|] == buckets;
  }

  lemma NextFill(fills: seq<Fill>, at: nat, feeBps: real)
    requires at < |fills|
    ensures E.ApplyFills(NOTHING, fills[..at + 1], feeBps) ==
      E.ApplyFill(E.ApplyFills(NOTHING, fills[..at], feeBps), fills[at], feeBps)
  {
    hide E.ApplyFill;
    assert fills[..at + 1][..at] == fills[..at];
  }

  /** `cash` and `inventory` are those of the fills. */
  ghost predicate Holds(fills: seq<Fill>, feeBps: real, cash: real, inventory: real) {
    var l := E.ApplyFills(NOTHING, fills, feeBps);
    cash == l.cash && inventory == l.inventory
  }

  method BookFill(fill: Fill, feeBps: real, cash0: real, inventory0: real) returns (cash: real, inventory: real)
    ensures cash == cash0 + CashOf(fill, feeBps) && inventory == inventory0 + E.Signed(fill)
  {
    var notional := fill.px as real * fill.sz;
    if fill.side == Bid {
      inventory := inventory0 + fill.sz;
      cash := cash0 - notional;
    } else {
      inventory := inventory0 - fill.sz;
      cash := cash0 + notional;
    }
    cash := cash - notional * feeBps / 10000.0;
  }

  lemma HoldsNext(fills: seq<Fill>, at: nat, feeBps: real, cash: real, inventory: real)
    requires at < |fills| && Holds(fills[..at], feeBps, cash, inventory)
    ensures Holds(fills[..at + 1], feeBps, cash + CashOf(fills[at], feeBps), inventory + E.Signed(fills[at]))
  {
    hide E.ApplyFills, E.ApplyFill, CashOf, E.Signed;
    NextFill(fills, at, feeBps);
    OneFill(E.ApplyFills(NOTHING, fills[..at], feeBps), fills[at], feeBps);
  }

  /** The first cursor: books every fill up to and including the bucket's right edge. */
  method PassFills(fills: seq<Fill>, from: nat, edge: int, feeBps: real, cash0: real, inventory0: real)
    returns (at: nat, cash: real, inventory: real)
    requires from <= |fills| && Holds(fills[..from], feeBps, cash0, inventory0)
    ensures from <= at <= |fills| && (at < |fills| ==> fills[at].tMs > edge)
    ensures forall i :: from <= i < at ==> fills[i].tMs <= edge
    ensures Holds(fills[..at], feeBps, cash, inventory)
  {
    hide Holds, CashOf, E.Signed;
    at, cash, inventory := from, cash0, inventory0;
    while at < |fills| && fills[at].tMs <= edge
      invariant from <= at <= |fills| && forall i :: from <= i < at ==> fills[i].tMs <= edge
      invariant Holds(fills[..at], feeBps, cash, inventory)
    {
      HoldsNext(fills, at, feeBps, cash, inventory);
      cash, inventory := BookFill(fills[at], feeBps, cash, inventory);
      at := at + 1;
    }
  }

  /** The second cursor: the last mid at or before the bucket's right edge. */
  method PassMids(mids: seq<(int, real)>, from: nat, edge: int, mid0: real) returns (at: nat, mid: real)
    requires from <= |mids| && (from > 0 ==> mid0 == mids[from - 1].1)
    ensures from <= at <= |mids| && (at < |mids| ==> mids[at].0 > edge)
    ensures (at > 0 ==> mid == mids[at - 1].1) && (at == 0 ==> mid == mid0)
  {
    at, mid := from, mid0;
    while at < |mids| && mids[at].0 <= edge
      invariant from <= at <= |mids| && (at > 0 ==> mid == mids[at - 1].1) && (at == 0 ==> mid == mid0)
    {
      mid := mids[at].1;
      at := at + 1;
    }
  }

  /**
   * Equity change per bucket. Whatever the bucket width, the changes sum to what the fills up to the last mid's
   * time are worth at that mid, and the counts to how many such fills there are.
   */
  method Bucketize(mids: seq<(int, real)>, fills: seq<Fill>, bucketMs: int, feeBps: real) returns (buckets: seq<Bucket>)
    requires bucketMs > 0
    ensures mids == [] || mids[0].0 >= mids[|mids| - 1].0 ==> buckets == []
    ensures mids != [] && mids[0].0 < mids[|mids| - 1].0 ==>
      var edges := Edges(mids[0].0, mids[|mids| - 1].0, bucketMs);
      |buckets| == |edges| - 1 && forall i :: 0 <= i < |buckets| ==> buckets[i].tStart == edges[i]
    ensures mids != [] && mids[0].0 < mids[|mids| - 1].0 && MidsInOrder(mids) ==>
      var onTime := OnTime(fills, mids[|mids| - 1].0);
      SumPnl(buckets) == Worth(onTime, feeBps, mids[|mids| - 1].1) && SumFills(buckets) == |onTime|
  {
    hide Holds, Edges, SortByTime, OnTime, MidsInOrder, SumPnl, SumFills;
    buckets := [];
    if mids == [] {
      return;
    }
    var start, end := mids[0].0, mids[|mids| - 1].0;
    var edges := Edges(start, end, bucketMs);
    var ordered := SortByTime(fills);
    var fillIndex: nat, midIndex: nat := 0, 0;
    var cash, inventory, prevEquity, lastMid := 0.0, 0.0, 0.0, mids[0].1;
    NoFills(ordered, feeBps);
    NoBuckets();
    NoEdges(start, end, bucketMs);
    if start < end { EdgesWithin(start, end, bucketMs); }
    var i := 0;
    while i + 1 < |edges|
      invariant 0 <= i < |edges| && |buckets| == i && fillIndex <= |ordered| && midIndex <= |mids|
      invariant forall j :: 0 <= j < i ==> buckets[j].tStart == edges[j]
      invariant Holds(ordered[..fillIndex], feeBps, cash, inventory)
      invariant SumPnl(buckets) == prevEquity && SumFills(buckets) == fillIndex
      invariant i > 0 ==> prevEquity == cash + inventory * lastMid
      invariant midIndex > 0 ==> lastMid == mids[midIndex - 1].1
      invariant forall j :: 0 <= j < fillIndex ==> ordered[j].tMs <= end
      invariant i > 0 ==>
        (fillIndex < |ordered| ==> ordered[fillIndex].tMs > edges[i]) &&
        (midIndex < |mids| ==> mids[midIndex].0 > edges[i])
    {
      var before := fillIndex;
      fillIndex, cash, inventory := PassFills(ordered, fillIndex, edges[i + 1], feeBps, cash, inventory);
      midIndex, lastMid := PassMids(mids, midIndex, edges[i + 1], lastMid);
      var equity := cash + inventory * lastMid;
      var bucket := Bucket(edges[i], equity - prevEquity, fillIndex - before);
      BucketSnoc(buckets, bucket);
      buckets := buckets + [bucket];
      prevEquity := equity;
      i := i + 1;
    }
    if start < end && MidsInOrder(mids) {
      LastMid(mids, midIndex);
      Telescoped(fills, ordered, fillIndex, end, feeBps, cash, inventory, lastMid);
    }
  }

  lemma NoBuckets()
    ensures SumPnl([]) == 0.0 && SumFills([]) == 0
  {}

  lemma NoEdges(start: int, end: int, step: int)
    requires step > 0
    ensures |Edges(start, end, step)| >= 1 && (start >= end ==> |Edges(start, end, step)| == 1)
  {}

  /** In time order the cursor that has no mid later than the end ahead of it has passed them all. */
  lemma LastMid(mids: seq<(int, real)>, at: nat)
    requires mids != [] && MidsInOrder(mids) && at <= |mids| && (at < |mids| ==> mids[at].0 > mids[|mids| - 1].0)
    ensures at == |mids|
  {}

  lemma NoFills(fills: seq<Fill>, feeBps: real)
    ensures Holds(fills[..0], feeBps, 0.0, 0.0)
  {}

  lemma Telescoped(
      fills: seq<Fill>, ordered: seq<Fill>, at: nat, end: int, feeBps: real, cash: real, inventory: real, mark: real)
    requires ordered == SortByTime(fills) && at <= |ordered| && Holds(ordered[..at], feeBps, cash, inventory)
    requires (forall j :: 0 <= j < at ==> ordered[j].tMs <= end) && (at < |ordered| ==> ordered[at].tMs > end)
    ensures cash + inventory * mark == Worth(OnTime(fills, end), feeBps, mark) && at == |OnTime(fills, end)|
  {
    hide E.ApplyFills, CashSum, NetSum, SortByTime, OnTime;
    SortOrdered(fills);
    OnTimePrefix(ordered, end, at);
    SortSums(fills, end, feeBps);
    LedgerIsSum(ordered[..at], feeBps);
    LedgerIsSum(OnTime(fills, end), feeBps);
  }

  // ---------- against the engine ----------

  /** The pass's PnL: cash plus inventory at the final mid. */
  function TotalPnl(e: E.Engine): real {
    e.ledger.cash + e.ledger.inventory * if e.mid.Some? then e.mid.value else 0.0
  }

  lemma {:induction false} SplitSums(fills: seq<Fill>, end: int, feeBps: real)
    ensures CashSum(fills, feeBps) == CashSum(OnTime(fills, end), feeBps) + CashSum(Late(fills, end), feeBps)
    ensures NetSum(fills) == NetSum(OnTime(fills, end)) + NetSum(Late(fills, end))
    ensures |fills| == |OnTime(fills, end)| + |Late(fills, end)|
  {
    hide CashOf, E.Signed;
    if fills != [] { SplitSums(fills[1..], end, feeBps); }
  }

  lemma Distribute(a: real, b: real, m: real)
    ensures (a + b) * m == a * m + b * m
  {}

  lemma WorthSplits(fills: seq<Fill>, end: int, feeBps: real, mark: real)
    ensures Worth(fills, feeBps, mark) ==
      Worth(OnTime(fills, end), feeBps, mark) + Worth(Late(fills, end), feeBps, mark)
  {
    hide E.ApplyFills, CashSum, NetSum, CashOf;
    SplitSums(fills, end, feeBps);
    LedgerIsSum(fills, feeBps);
    LedgerIsSum(OnTime(fills, end), feeBps);
    LedgerIsSum(Late(fills, end), feeBps);
    Distribute(NetSum(OnTime(fills, end)), NetSum(Late(fills, end)), mark);
  }

  lemma {:induction false} MoreFills(l: E.Ledger, l0: E.Ledger, before: seq<Fill>, fills: seq<Fill>, feeBps: real)
    requires var b := E.ApplyFills(l0, before, feeBps); l.cash == b.cash && l.inventory == b.inventory
    ensures var x, y := E.ApplyFills(l, fills, feeBps), E.ApplyFills(l0, before + fills, feeBps);
      x.cash == y.cash && x.inventory == y.inventory
  {
    hide E.ApplyFill, CashOf, E.Signed;
    if fills == [] { assert before + fills == before; } else {
      var n := |fills| - 1;
      MoreFills(l, l0, before, fills[..n], feeBps);
      assert (before + fills)[..|before + fills| - 1] == before + fills[..n];
      OneFill(E.ApplyFills(l, fills[..n], feeBps), fills[n], feeBps);
      OneFill(E.ApplyFills(l0, before + fills[..n], feeBps), fills[n], feeBps);
    }
  }

  /** What one event does to the ledger, the fills and the mids, without funding. */
  lemma LedgerStep(config: E.Config, sim: E.Sim.SimState, evs: seq<E.Event>)
    requires config.fundingRateHourly == 0.0 && evs != []
    ensures var e0, n := E.Start(config, sim), |evs| - 1; var e, e' := E.Run(e0, evs[..n]), E.Run(e0, evs);
      if evs[n].BookSeen? then
        var filled := E.SimBlock(e, evs[n].tMs, evs[n].view, evs[n].batch, evs[n].stale).1;
        e'.ledger == E.ApplyFills(e.ledger, filled, config.makerFeeBps) && e'.fills == e.fills + filled &&
        e'.mid == E.NextMid(evs[n].view, e.mid) && E.BlockTimes(evs) == E.BlockTimes(evs[..n]) + [evs[n].tMs] &&
        e'.midSeries == (if e'.mid.Some? then e.midSeries + [(evs[n].tMs, e'.mid.value)] else e.midSeries)
      else
        e'.ledger == e.ledger && e'.fills == e.fills && e'.mid == e.mid && e'.midSeries == e.midSeries &&
        E.BlockTimes(evs) == E.BlockTimes(evs[..n])
  {
    hide E.SimBlock, E.ApplyFills, E.NextMid, E.NotDue, E.Submit;
    E.BlocksCounted(config, sim, evs[..|evs| - 1]);
    var n := |evs| - 1;
    var e := E.Run(E.Start(config, sim), evs[..n]);
    if evs[n].BookSeen? {
      var l := e.ledger;
      var funding := E.Funding(e, evs[n].tMs);
      assert l.(cash := l.cash - funding, fundingPaid := l.fundingPaid + funding) == l;
    }
  }

  /** A block's mid joins the end of the series. */
  lemma MidsStep(mids: seq<(int, real)>, times: seq<int>, mid: Option<real>, t: int, view: BookView)
    requires MidsSoFar(mids, times, mid) && E.Nondecreasing(times + [t])
    ensures var mid' := E.NextMid(view, mid);
      MidsSoFar(if mid'.Some? then mids + [(t, mid'.value)] else mids, times + [t], mid')
  {
    var all := times + [t];
    if times != [] { assert all[|times| - 1] <= all[|times|]; }
    if mids != [] { assert forall i :: 0 <= i < |mids| ==> mids[i].0 <= mids[|mids| - 1].0; }
  }

  /** The mids run in time order, and the last of them is the engine's mid, stamped with the last block's time. */
  ghost predicate MidsSoFar(mids: seq<(int, real)>, times: seq<int>, mid: Option<real>) {
    && MidsInOrder(mids)
    && (mids == [] ==> mid == None)
    && (mids != [] ==> mid == Some(mids[|mids| - 1].1) && times != [] && mids[|mids| - 1].0 == times[|times| - 1])
  }

  ghost predicate SameCash(l: E.Ledger, fills: seq<Fill>, feeBps: real) {
    var sum := E.ApplyFills(NOTHING, fills, feeBps);
    l.cash == sum.cash && l.inventory == sum.inventory
  }

  lemma CashStep(l: E.Ledger, before: seq<Fill>, fills: seq<Fill>, feeBps: real)
    requires SameCash(l, before, feeBps)
    ensures SameCash(E.ApplyFills(l, fills, feeBps), before + fills, feeBps)
  {
    MoreFills(l, NOTHING, before, fills, feeBps);
  }

  lemma NothingRun(config: E.Config, sim: E.Sim.SimState)
    ensures var e := E.Run(E.Start(config, sim), []);
      SameCash(e.ledger, e.fills, config.makerFeeBps) && MidsSoFar(e.midSeries, E.BlockTimes([]), e.mid)
  {}

  /** Without funding the engine's cash and inventory are those of its fills alone. */
  lemma {:induction false} RunLedgerOfFills(config: E.Config, sim: E.Sim.SimState, evs: seq<E.Event>)
    requires config.fundingRateHourly == 0.0 && E.Nondecreasing(E.BlockTimes(evs))
    ensures var e := E.Run(E.Start(config, sim), evs);
      SameCash(e.ledger, e.fills, config.makerFeeBps) && MidsSoFar(e.midSeries, E.BlockTimes(evs), e.mid)
  {
    hide *;
    if evs == [] {
      NothingRun(config, sim);
    } else {
      var n := |evs| - 1;
      E.ShorterTimes(evs);
      RunLedgerOfFills(config, sim, evs[..n]);
      LedgerStep(config, sim, evs);
      var e := E.Run(E.Start(config, sim), evs[..n]);
      if evs[n].BookSeen? {
        var filled := E.SimBlock(e, evs[n].tMs, evs[n].view, evs[n].batch, evs[n].stale).1;
        CashStep(e.ledger, e.fills, filled, config.makerFeeBps);
        MidsStep(e.midSeries, E.BlockTimes(evs[..n]), e.mid, evs[n].tMs, evs[n].view);
      }
    }
  }
}
