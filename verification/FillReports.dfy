/**
 * What every emitted fill says is true of the order it fills: its level, and the queue-ahead it had on the print's
 * arrival.
 */
module FillReports {
  import opened Schemas
  import opened Fifo
  import opened FifoLaws
  import opened QueueState
  import opened QueueInvariant

  ghost predicate PartsReport(parts: seq<PartFill>, q: Queue, consumed: Size, ahead: Size) {
    forall i :: 0 <= i < |parts| ==>
      HasOwn(q, parts[i].id) && 0.0 < parts[i].sz <= Remaining(q, parts[i].id) &&
      parts[i].ahead == ahead + RealAhead(q, consumed, parts[i].id)
  }

  /** Reports about the rest of a queue are reports about the whole of it. */
  lemma PartsBehind(parts: seq<PartFill>, q: Queue, consumed: Size, ahead: Size, lo: int, hi: int)
    requires q != [] && Ascending(q, lo, hi)
    requires q[0].Own? ==> PartsReport(parts, q[1..], consumed, ahead)
    requires q[0].Real? ==>
      var take := Min(q[0].sz, consumed); PartsReport(parts, q[1..], consumed - take, ahead + q[0].sz - take)
    ensures PartsReport(parts, q, consumed, ahead)
  {
    forall i | 0 <= i < |parts|
      ensures HasOwn(q, parts[i].id) && 0.0 < parts[i].sz <= Remaining(q, parts[i].id) &&
        parts[i].ahead == ahead + RealAhead(q, consumed, parts[i].id)
    {
      AscendingBounds(q[1..], if q[0].Own? then q[0].id else lo, hi, parts[i].id);
    }
  }

  lemma PartsCons(p: PartFill, parts: seq<PartFill>, q: Queue, consumed: Size, ahead: Size)
    requires PartsReport([p], q, consumed, ahead) && PartsReport(parts, q, consumed, ahead)
    ensures PartsReport([p] + parts, q, consumed, ahead)
  {
    assert [p][0] == p;
  }

  lemma FrontReports(id: int, sz: Size, take: Size, q: Queue, consumed: Size, ahead: Size)
    requires q != [] && q[0] == Own(id, sz) && 0.0 < take <= sz
    ensures PartsReport([PartFill(id, take, ahead)], q, consumed, ahead)
  {}

  lemma WalkReal(exact: bool, q: Queue, budget: Size, skip: Size, ahead: Size)
    requires q != [] && q[0].Real? && budget > 0.0 && (!exact ==> skip == 0.0)
    ensures var already := Min(q[0].sz, skip); var take := Min(budget, q[0].sz - already);
      WalkAt(exact, q, budget, skip, ahead).fills ==
      WalkAt(exact, q[1..], budget - take, skip - already, ahead + q[0].sz - already).fills
  {}

  lemma WalkOwn(exact: bool, q: Queue, budget: Size, skip: Size, ahead: Size)
    requires q != [] && q[0].Own? && budget > 0.0
    ensures var take := Min(budget, q[0].sz);
      WalkAt(exact, q, budget, skip, ahead).fills ==
      (if take > 0.0 then [PartFill(q[0].id, take, ahead)] else []) +
      WalkAt(exact, q[1..], budget - take, skip, ahead).fills
  {}

  lemma NoWalkReports(exact: bool, q: Queue, budget: Size, skip: Size, ahead: Size)
    requires q == [] || budget <= 0.0
    ensures PartsReport(WalkAt(exact, q, budget, skip, ahead).fills, q, skip, ahead)
  {}

  /** A walk at the price pays an order and reports the unconsumed real volume that stood ahead of it. */
  lemma {:induction false} WalkAtReports(
      exact: bool, q: Queue, budget: Size, skip: Size, ahead: Size, lo: int, hi: int)
    requires Ascending(q, lo, hi) && (!exact ==> skip == 0.0)
    ensures PartsReport(WalkAt(exact, q, budget, skip, ahead).fills, q, skip, ahead)
  {
    hide WalkAt, PartsReport;
    if q == [] || budget <= 0.0 {
      NoWalkReports(exact, q, budget, skip, ahead);
    } else if q[0].Real? {
      var sz := q[0].sz;
      var already := Min(sz, skip);
      var take := Min(budget, sz - already);
      WalkAtReports(exact, q[1..], budget - take, skip - already, ahead + sz - already, lo, hi);
      WalkReal(exact, q, budget, skip, ahead);
      PartsBehind(WalkAt(exact, q, budget, skip, ahead).fills, q, skip, ahead, lo, hi);
    } else {
      var take := Min(budget, q[0].sz);
      WalkAtReports(exact, q[1..], budget - take, skip, ahead, q[0].id, hi);
      WalkOwn(exact, q, budget, skip, ahead);
      var rest := WalkAt(exact, q[1..], budget - take, skip, ahead).fills;
      PartsBehind(rest, q, skip, ahead, lo, hi);
      if take > 0.0 {
        FrontReports(q[0].id, q[0].sz, take, q, skip, ahead);
        PartsCons(PartFill(q[0].id, take, ahead), rest, q, skip, ahead);
      } else {
        assert [] + rest == rest;
      }
    }
  }

  lemma {:induction false} WalkThroughReports(exact: bool, q: Queue, skip: Size, ahead: Size, lo: int, hi: int)
    requires Ascending(q, lo, hi) && (!exact ==> skip == 0.0)
    ensures PartsReport(WalkThrough(exact, q, skip, ahead).fills, q, skip, ahead)
  {
    if q != [] {
      match q[0]
      case Real(_, sz) =>
        var already := Min(sz, skip);
        WalkThroughReports(exact, q[1..], skip - already, ahead + sz - already, lo, hi);
        PartsBehind(WalkThrough(exact, q[1..], skip - already, ahead + sz - already).fills, q, skip, ahead, lo, hi);
      case Own(id, sz) =>
        WalkThroughReports(exact, q[1..], skip, ahead, id, hi);
        var rest := WalkThrough(exact, q[1..], skip, ahead).fills;
        PartsBehind(rest, q, skip, ahead, lo, hi);
        if sz > 0.0 { PartsCons(PartFill(id, sz, ahead), rest, q, skip, ahead); }
    }
  }

  /** The fill names an open order at its level, no more than is open, and the queue-ahead the order had. */
  ghost predicate Reports(st: SimState, f: Fill, trade: Trade) {
    && Registered(st.registry, Key(f.side, f.px), f.orderId)
    && 0.0 < f.sz <= OpenSize(st, f.orderId)
    && QueueAhead(st, f.orderId) == Some(f.queueAhead)
    && f.tMs == trade.tMs
    && f.height == (if st.lastHeight.Some? then Some(st.lastHeight.value + 1) else None)
    && f.midAtFill == (if st.view.Some? then st.view.value.Mid() else None)
  }

  ghost predicate AllReport(st: SimState, fills: seq<Fill>, trade: Trade) {
    forall f :: f in fills ==> Reports(st, f, trade)
  }

  lemma {:induction false} EmitReports(st: SimState, key: Key, trade: Trade, parts: seq<PartFill>)
    requires Inv(st) && key in st.levels && PartsReport(parts, st.levels[key].queue, st.levels[key].consumed, 0.0)
    ensures AllReport(st, EmitAll(st, key, trade, parts), trade)
  {
    if parts != [] {
      assert PartsReport(parts[1..], st.levels[key].queue, st.levels[key].consumed, 0.0);
      EmitReports(st, key, trade, parts[1..]);
      assert Lists(st.levels, key, parts[0].id);
      assert Registered(st.registry, key, parts[0].id);
      assert Reports(st, Emit(st, key, trade, parts[0]), trade);
    }
  }

  lemma LevelReports(st: SimState, key: Key, trade: Trade)
    requires Inv(st) && key in st.levels
    ensures AllReport(st, OnLevel(st, key, trade).1, trade)
  {
    hide AllReport;
    var exact, level := st.bound == Exact, st.levels[key];
    assert LevelOk(st.bound, level, st.nextId);
    match PrintOn(key, trade)
    case At(sz) =>
      WalkAtReports(exact, level.queue, sz, level.consumed, 0.0, 0, st.nextId);
      EmitReports(st, key, trade, WalkAt(exact, level.queue, sz, level.consumed, 0.0).fills);
    case Through =>
      WalkThroughReports(exact, level.queue, level.consumed, 0.0, 0, st.nextId);
      EmitReports(st, key, trade, WalkThrough(exact, level.queue, level.consumed, 0.0).fills);
  }

  /** A print on one level leaves what is true of an order at another. */
  lemma OtherLevelReports(st: SimState, key: Key, trade: Trade, f: Fill)
    requires Inv(st) && key in st.levels && Key(f.side, f.px) != key
    requires Reports(OnLevel(st, key, trade).0, f, trade)
    ensures Reports(st, f, trade)
  {
    hide OnLevel;
    OnLevelLaw(st, key, trade);
    var st1, k := OnLevel(st, key, trade).0, Key(f.side, f.px);
    assert Lists(st1.levels, k, f.orderId);
    assert k in st1.levels && k in st.levels && st1.levels[k] == st.levels[k];
    assert Lists(st.levels, k, f.orderId);
  }

  ghost predicate FillsOn(fills: seq<Fill>, keys: seq<Key>) {
    forall f :: f in fills ==> Key(f.side, f.px) in keys
  }

  lemma {:induction false} EmitsOn(st: SimState, key: Key, trade: Trade, parts: seq<PartFill>)
    ensures forall f :: f in EmitAll(st, key, trade, parts) ==> Key(f.side, f.px) == key
  {
    if parts != [] { EmitsOn(st, key, trade, parts[1..]); }
  }

  lemma {:induction false} LevelsReport(st: SimState, keys: seq<Key>, trade: Trade)
    requires Inv(st) && Distinct(keys)
    ensures AllReport(st, OnLevels(st, keys, trade).1, trade) && FillsOn(OnLevels(st, keys, trade).1, keys)
    decreases keys
  {
    hide Inv, Reports, OnLevel;
    if keys != [] {
      assert Distinct(keys[1..]);
      if keys[0] in st.levels && TradeReaches(keys[0].side, keys[0].px, trade.px) {
        var (st1, fills1) := OnLevel(st, keys[0], trade);
        OnLevelLaw(st, keys[0], trade);
        LevelReports(st, keys[0], trade);
        LevelFillsOn(st, keys[0], trade);
        LevelsReport(st1, keys[1..], trade);
        var fills2 := OnLevels(st1, keys[1..], trade).1;
        forall f | f in fills2 ensures Reports(st, f, trade) && Key(f.side, f.px) in keys {
          assert keys[0] !in keys[1..];
          OtherLevelReports(st, keys[0], trade, f);
        }
      } else {
        LevelsReport(st, keys[1..], trade);
      }
    }
  }

  lemma LevelFillsOn(st: SimState, key: Key, trade: Trade)
    requires key in st.levels
    ensures forall f :: f in OnLevel(st, key, trade).1 ==> Key(f.side, f.px) == key
  {
    EmitsOn(st, key, trade, Walk(st.bound == Exact, st.levels[key], PrintOn(key, trade)).fills);
  }

  /**
   * In every mode each fill of a print names an open order, at most what is open of it, its level, and exactly the
   * queue-ahead that order would have reported the moment before the print.
   */
  lemma FillsReportTheQueue(st: SimState, trade: Trade)
    requires Inv(st)
    ensures AllReport(st, OnTrade(st, trade).1, trade)
  {
    hide Inv, Reports;
    if trade.coin == st.coin {
      var keys := LevelsBestFirst(st.levels, RestingSideHit(trade.side));
      BestFirstLaw(st.levels, RestingSideHit(trade.side));
      LevelsReport(st, keys, trade);
    }
  }
}
