/** Price-time priority of a print, and how an order's queue-ahead moves. */
module Priority {
  import opened Schemas
  import opened Fifo
  import opened FifoLaws
  import opened ReconcileLaws
  import opened LazyConsumption
  import opened QueueState
  import opened QueueInvariant
  import opened Bracket

  // ---------- what one print pays one order ----------

  /** Everything that must trade before order `id` does: unconsumed real volume and earlier own orders. */
  function StandingAhead(s: LevelState, id: int): Size {
    RealAhead(s.queue, s.consumed, id) + OwnAhead(s.queue, id)
  }

  lemma {:induction false} EagerOrders(q: Queue, consumed: Size, id: int)
    ensures var e := Eager(q, consumed);
      OwnAhead(e, id) == OwnAhead(q, id) && Remaining(e, id) == Remaining(q, id) && (HasOwn(e, id) <==> HasOwn(q, id))
  {
    if q != [] { EagerOrders(q[1..], if q[0].Own? then consumed else consumed - Min(q[0].sz, consumed), id); }
  }

  lemma StandingIsEager(s: LevelState, id: int)
    ensures StandingAhead(s, id) == VolumeAhead(EagerState(s).queue, id)
  {
    LazyAhead(s.queue, s.consumed, id);
    EagerOrders(s.queue, s.consumed, id);
    AheadSplits(EagerState(s).queue, id);
  }

  /** At its own price an order gets exactly what the print has left after everything standing ahead of it. */
  lemma AtPriceShare(exact: bool, s: LevelState, sz: Size, hi: int, id: int)
    requires Ascending(s.queue, 0, hi) && (!exact ==> s.consumed == 0.0)
    ensures var w := Walk(exact, s, At(sz));
      FilledOf(w.fills, id) == Min(Remaining(s.queue, id), Max(0.0, sz - StandingAhead(s, id)))
  {
    if exact {
      PrintCommutes(s, At(sz));
      EagerOrder(s.queue, s.consumed, 0, hi);
      EagerOrders(s.queue, s.consumed, id);
      StandingIsEager(s, id);
      WalkAtLaw(Eager(s.queue, s.consumed), sz, 0.0, id);
      WalkAtPays(false, Eager(s.queue, s.consumed), sz, 0.0, 0.0, 0, hi, id);
    } else {
      RealAheadFresh(s.queue, id);
      AheadSplits(s.queue, id);
      WalkAtLaw(s.queue, sz, 0.0, id);
      WalkAtPays(false, s.queue, sz, 0.0, 0.0, 0, hi, id);
    }
  }

  /** An order on a level the print reaches is paid what the walk of its level pays it. */
  lemma PaidByItsLevel(st: SimState, trade: Trade, k: Key, id: int)
    requires Inv(st) && Registered(st.registry, k, id) && k in HitBy(st, trade)
    ensures LevelOk(st.bound, st.levels[k], st.nextId) && OpenSize(st, id) == Remaining(st.levels[k].queue, id)
    ensures FilledSize(OnTrade(st, trade).1, id) ==
            FilledOf(Walk(st.bound == Exact, st.levels[k], PrintOn(k, trade)).fills, id)
  {
    hide OnTrade, Walk, AfterPrint;
    var st' := OnTrade(st, trade).0;
    assert Lists(st.levels, k, id);
    OnTradeLaw(st, trade);
    var after := LevelAfter(st, k, trade);
    AfterPrintLaw(st.bound == Exact, st.levels[k], PrintOn(k, trade), 0, st.nextId, id);
    if HasOwn(after.queue, id) {
      HasOwnQuoted(after.queue, id);
      assert Lists(st'.levels, k, id);
      assert Registered(st'.registry, k, id);
    } else {
      assert !Lists(st'.levels, k, id);
      assert !Registered(st'.registry, k, id);
    }
  }

  /** An order on a level the print does not reach is paid nothing. */
  lemma UnreachedStands(st: SimState, trade: Trade, k: Key, id: int)
    requires Inv(st) && Registered(st.registry, k, id) && k !in HitBy(st, trade)
    ensures k in st.levels
    ensures var (st', fills) := OnTrade(st, trade);
      k in st'.levels && st'.levels[k] == st.levels[k] && FilledSize(fills, id) == 0.0
  {
    hide OnTrade;
    var st' := OnTrade(st, trade).0;
    assert Lists(st.levels, k, id);
    OnTradeLaw(st, trade);
    assert Lists(st'.levels, k, id);
    assert Registered(st'.registry, k, id);
  }

  lemma ThroughFills(st: SimState, trade: Trade, k: Key, id: int)
    requires Inv(st) && Registered(st.registry, k, id) && k in HitBy(st, trade)
    requires TradeThrough(k.side, k.px, trade.px)
    ensures var (st', fills) := OnTrade(st, trade); k !in st'.levels && FilledSize(fills, id) == OpenSize(st, id)
  {
    hide OnTrade, AfterPrint, OpenSize;
    var s := st.levels[k];
    PaidByItsLevel(st, trade, k, id);
    WalkThroughPays(st.bound == Exact, s.queue, if st.bound == Exact then s.consumed else 0.0, 0.0, 0, st.nextId, id);
    ThroughEmpties(st.bound == Exact, s, st.nextId);
    OnTradeLaw(st, trade);
  }

  /**
   * Price-time priority. A print empties every level of ours at a strictly better price, fills an order at the
   * print's price only with what everything standing ahead of it leaves, and touches nothing else.
   */
  lemma PriceTimePriority(st: SimState, trade: Trade, k: Key, id: int)
    requires Inv(st) && trade.coin == st.coin && Registered(st.registry, k, id)
    ensures k in st.levels
    ensures var (st', fills) := OnTrade(st, trade);
      var better := k.side == RestingSideHit(trade.side) && TradeThrough(k.side, k.px, trade.px);
      var here := k.side == RestingSideHit(trade.side) && k.px == trade.px;
      if better then k !in st'.levels && FilledSize(fills, id) == OpenSize(st, id)
      else if here then
        FilledSize(fills, id) == Min(OpenSize(st, id), Max(0.0, trade.sz - StandingAhead(st.levels[k], id)))
      else k in st'.levels && st'.levels[k] == st.levels[k] && FilledSize(fills, id) == 0.0
  {
    hide OnTrade, OpenSize, StandingAhead, Walk, LevelOk, FilledSize;
    assert Lists(st.levels, k, id);
    if k !in HitBy(st, trade) {
      UnreachedStands(st, trade, k, id);
    } else if TradeThrough(k.side, k.px, trade.px) {
      ThroughFills(st, trade, k, id);
    } else {
      PaidByItsLevel(st, trade, k, id);
      assert LevelOk(st.bound, st.levels[k], st.nextId);
      InOrder(st.bound, st.levels[k], st.nextId);
      AtPriceShare(st.bound == Exact, st.levels[k], trade.sz, st.nextId, id);
    }
  }

  lemma InOrder(bound: Bound, level: LevelState, nextId: int)
    requires LevelOk(bound, level, nextId)
    ensures Ascending(level.queue, 0, nextId) && (bound != Exact ==> level.consumed == 0.0)
  {}

  lemma ThroughEmpties(exact: bool, s: LevelState, hi: int)
    requires Ascending(s.queue, 0, hi)
    ensures !Quoted(AfterPrint(exact, s, Through).queue)
  {
    var after := AfterPrint(exact, s, Through).queue;
    if Quoted(after) {
      var id := QuotedHasOwn(after);
      WalkThroughPays(exact, s.queue, if exact then s.consumed else 0.0, 0.0, 0, hi, id);
      SweepLaw(exact, Walk(exact, s, Through).queue, 0, hi, id);
      assert false;
    }
  }

  // ---------- the order fills come in ----------

  /** Best price first, and at one price in the order the quotes were placed. */
  ghost predicate InPriority(f: Fill, g: Fill) {
    f.side == g.side && (Rank(f.side, f.px) < Rank(g.side, g.px) || (f.px == g.px && f.orderId < g.orderId))
  }

  ghost predicate AllInPriority(fills: seq<Fill>) {
    forall i, j :: 0 <= i < j < |fills| ==> InPriority(fills[i], fills[j])
  }

  ghost predicate PartsAscend(parts: seq<PartFill>, lo: int) {
    parts == [] || (lo < parts[0].id && PartsAscend(parts[1..], parts[0].id))
  }

  lemma {:induction false} PartsLoosen(parts: seq<PartFill>, lo: int, lo': int)
    requires PartsAscend(parts, lo') && lo <= lo'
    ensures PartsAscend(parts, lo)
  {}

  lemma {:induction false} WalkAtAscends(exact: bool, q: Queue, budget: Size, skip: Size, ahead: Size, lo: int, hi: int)
    requires Ascending(q, lo, hi)
    ensures PartsAscend(WalkAt(exact, q, budget, skip, ahead).fills, lo)
  {
    if q != [] && budget > 0.0 {
      match q[0]
      case Real(_, sz) =>
        var already := if exact then Min(sz, skip) else 0.0;
        WalkAtAscends(exact, q[1..], budget - Min(budget, sz - already), skip - already, ahead + sz - already, lo, hi);
      case Own(a, sz) =>
        var rest := WalkAt(exact, q[1..], budget - Min(budget, sz), skip, ahead).fills;
        WalkAtAscends(exact, q[1..], budget - Min(budget, sz), skip, ahead, a, hi);
        PartsLoosen(rest, lo, a);
        assert ([PartFill(a, Min(budget, sz), ahead)] + rest)[1..] == rest;
    }
  }

  lemma {:induction false} WalkThroughAscends(exact: bool, q: Queue, skip: Size, ahead: Size, lo: int, hi: int)
    requires Ascending(q, lo, hi)
    ensures PartsAscend(WalkThrough(exact, q, skip, ahead).fills, lo)
  {
    if q != [] {
      match q[0]
      case Real(_, sz) =>
        var already := if exact then Min(sz, skip) else 0.0;
        WalkThroughAscends(exact, q[1..], skip - already, ahead + sz - already, lo, hi);
      case Own(a, sz) =>
        var rest := WalkThrough(exact, q[1..], skip, ahead).fills;
        WalkThroughAscends(exact, q[1..], skip, ahead, a, hi);
        PartsLoosen(rest, lo, a);
        assert ([PartFill(a, sz, ahead)] + rest)[1..] == rest;
    }
  }

  lemma {:induction false} EmittedInPriority(st: SimState, key: Key, trade: Trade, parts: seq<PartFill>, lo: int)
    requires PartsAscend(parts, lo)
    ensures var fills := EmitAll(st, key, trade, parts);
      AllInPriority(fills) &&
      forall i :: 0 <= i < |fills| ==> fills[i].side == key.side && fills[i].px == key.px && lo < fills[i].orderId
  {
    if parts != [] {
      EmittedInPriority(st, key, trade, parts[1..], parts[0].id);
      var rest := EmitAll(st, key, trade, parts[1..]);
      assert EmitAll(st, key, trade, parts) == [Emit(st, key, trade, parts[0])] + rest;
    }
  }

  lemma OnLevelInPriority(st: SimState, key: Key, trade: Trade)
    requires Inv(st) && key in st.levels
    ensures var fills := OnLevel(st, key, trade).1;
      AllInPriority(fills) && forall i :: 0 <= i < |fills| ==> fills[i].side == key.side && fills[i].px == key.px
  {
    var s := st.levels[key];
    var exact := st.bound == Exact;
    var w := Walk(exact, s, PrintOn(key, trade));
    assert LevelOk(st.bound, s, st.nextId);
    match PrintOn(key, trade) {
      case At(sz) => WalkAtAscends(exact, s.queue, sz, if exact then s.consumed else 0.0, 0.0, 0, st.nextId);
      case Through => WalkThroughAscends(exact, s.queue, if exact then s.consumed else 0.0, 0.0, 0, st.nextId);
    }
    EmittedInPriority(st, key, trade, w.fills, 0);
  }

  ghost predicate FillsAt(fills: seq<Fill>, keys: seq<Key>) {
    forall i :: 0 <= i < |fills| ==> Key(fills[i].side, fills[i].px) in keys
  }

  ghost predicate BestFirst(keys: seq<Key>, side: Side) {
    (forall k :: k in keys ==> k.side == side) &&
    forall i, j :: 0 <= i < j < |keys| ==> Rank(side, keys[i].px) < Rank(side, keys[j].px)
  }

  lemma JoinInPriority(fills1: seq<Fill>, fills2: seq<Fill>, k0: Key, rest: seq<Key>)
    requires AllInPriority(fills1) && AllInPriority(fills2) && FillsAt(fills1, [k0]) && FillsAt(fills2, rest)
    requires BestFirst([k0] + rest, k0.side)
    ensures AllInPriority(fills1 + fills2) && FillsAt(fills1 + fills2, [k0] + rest)
  {
    forall i, j | 0 <= i < |fills1| && 0 <= j < |fills2| ensures InPriority(fills1[i], fills2[j]) {
      var k := Key(fills2[j].side, fills2[j].px);
      assert k in rest;
      var n :| 0 <= n < |rest| && rest[n] == k;
      assert ([k0] + rest)[n + 1] == k && ([k0] + rest)[0] == k0;
      assert Key(fills1[i].side, fills1[i].px) in [k0];
    }
  }

  lemma {:induction false} OnLevelsInPriority(st: SimState, keys: seq<Key>, side: Side, trade: Trade)
    requires Inv(st) && Distinct(keys) && BestFirst(keys, side)
    ensures AllInPriority(OnLevels(st, keys, trade).1) && FillsAt(OnLevels(st, keys, trade).1, keys)
    decreases keys
  {
    hide OnLevel, Inv, AllInPriority, InPriority;
    if keys == [] {
      NothingInPriority();
    } else {
      var k0, rest := keys[0], keys[1..];
      assert keys == [k0] + rest;
      if k0 !in st.levels || !TradeReaches(k0.side, k0.px, trade.px) {
        OnLevelsInPriority(st, rest, side, trade);
      } else {
        var (st1, fills1) := OnLevel(st, k0, trade);
        OnLevelLaw(st, k0, trade);
        OnLevelInPriority(st, k0, trade);
        OnLevelsInPriority(st1, rest, side, trade);
        JoinInPriority(fills1, OnLevels(st1, rest, trade).1, k0, rest);
      }
    }
  }

  lemma NothingInPriority()
    ensures AllInPriority([])
  {}

  /** A print's fills come out best price first and, at one price, oldest quote first. */
  lemma FillsInPriority(st: SimState, trade: Trade)
    requires Inv(st)
    ensures AllInPriority(OnTrade(st, trade).1)
  {
    var side := RestingSideHit(trade.side);
    BestFirstLaw(st.levels, side);
    NothingInPriority();
    OnLevelsInPriority(st, LevelsBestFirst(st.levels, side), side, trade);
  }

  // ---------- queue-ahead only shrinks ----------

  lemma PrintShrinksAhead(exact: bool, s: LevelState, p: Print, hi: int, id: int)
    requires Ascending(s.queue, 0, hi) && HasOwn(AfterPrint(exact, s, p).queue, id) && (!exact ==> s.consumed == 0.0)
    ensures var after := AfterPrint(exact, s, p);
      RealAhead(after.queue, after.consumed, id) <= RealAhead(s.queue, s.consumed, id)
  {
    if exact {
      PrintCommutes(s, p);
      LazyAhead(s.queue, s.consumed, id);
      LazyAhead(AfterPrint(true, s, p).queue, AfterPrint(true, s, p).consumed, id);
      EagerOrder(s.queue, s.consumed, 0, hi);
      EagerOrders(AfterPrint(true, s, p).queue, AfterPrint(true, s, p).consumed, id);
      PrintShrinksBefore(EagerState(s), p, hi, id);
    } else {
      PrintShrinksBefore(s, p, hi, id);
      RealAheadFresh(s.queue, id);
      RealAheadFresh(AfterPrint(false, s, p).queue, id);
      AfterPrintLaw(false, s, p, 0, hi, id);
    }
  }

  lemma PrintShrinksBefore(s: LevelState, p: Print, hi: int, id: int)
    requires Ascending(s.queue, 0, hi) && HasOwn(AfterPrint(false, s, p).queue, id)
    ensures RealBefore(AfterPrint(false, s, p).queue, id) <= RealBefore(s.queue, id)
  {
    match p
    case At(sz) =>
      WalkAtLaw(s.queue, sz, 0.0, id);
      WalkAtPays(false, s.queue, sz, 0.0, 0.0, 0, hi, id);
      SweepLaw(false, Walk(false, s, p).queue, 0, hi, id);
    case Through =>
      ThroughEmpties(false, s, hi);
      HasOwnQuoted(AfterPrint(false, s, p).queue, id);
  }

  /** What the queue-ahead of an open order is under the aggregated-book bounds. */
  lemma AheadIsBefore(st: SimState, id: int)
    requires Inv(st) && st.bound != Exact && id in st.registry
    ensures var k := st.registry[id];
      && k in st.levels && LevelOk(st.bound, st.levels[k], st.nextId) && HasOwn(st.levels[k].queue, id)
      && QueueAhead(st, id) == Some(RealBefore(st.levels[k].queue, id))
  {
    OpenSizeAt(st, id);
    RealAheadFresh(st.levels[st.registry[id]].queue, id);
  }

  lemma PlaceKeepsAhead(st: SimState, key: Key, sz: Size, k: Key, id: int)
    requires Inv(st) && k in st.levels && HasOwn(st.levels[k].queue, id)
    ensures k in Place(st, key, sz).levels
    ensures RealBefore(Place(st, key, sz).levels[k].queue, id) == RealBefore(st.levels[k].queue, id)
  {
    assert LevelOk(st.bound, st.levels[k], st.nextId);
    AppendLaw(st.levels[k].queue, Own(st.nextId, sz), 0, st.nextId, id);
  }

  lemma CancelKeepsAhead(st: SimState, gone: int, stale: bool, k: Key, id: int)
    requires Inv(st) && k in st.levels && HasOwn(st.levels[k].queue, id) && id != gone
    ensures k in Cancel(st, gone, stale).levels ==>
      RealBefore(Cancel(st, gone, stale).levels[k].queue, id) == RealBefore(st.levels[k].queue, id)
  {
    assert LevelOk(st.bound, st.levels[k], st.nextId);
    WithoutOwnLaw(st.levels[k].queue, gone, 0, st.nextId, id);
  }

  lemma PrintKeepsAhead(st: SimState, trade: Trade, k: Key, id: int)
    requires Inv(st) && st.bound != Exact && k in st.levels && k in OnTrade(st, trade).0.levels
    requires HasOwn(OnTrade(st, trade).0.levels[k].queue, id)
    ensures RealBefore(OnTrade(st, trade).0.levels[k].queue, id) <= RealBefore(st.levels[k].queue, id)
  {
    hide OnTrade, AfterPrint;
    assert LevelOk(st.bound, st.levels[k], st.nextId);
    OnTradeLaw(st, trade);
    if k in HitBy(st, trade) {
      PrintShrinksBefore(st.levels[k], PrintOn(k, trade), st.nextId, id);
    }
  }

  lemma BookShrinksAhead(st: SimState, view: BookView, batch: Option<BlockDiffBatch>, k: Key, id: int)
    requires Inv(st) && st.bound != Exact && k in st.levels && HasOwn(st.levels[k].queue, id)
    ensures k in OnBook(st, view, batch).levels
    ensures var after := RealBefore(OnBook(st, view, batch).levels[k].queue, id);
      after <= RealBefore(st.levels[k].queue, id) && after <= VisibleIn(view, k)
  {
    hide Reconcile;
    OnBookLaw(st, view, batch);
    assert LevelOk(st.bound, st.levels[k], st.nextId);
    ReconcileLaw(st.bound, st.levels[k].queue, VisibleIn(view, k), 0, st.nextId, id);
  }

  /**
   * Under the three aggregated-book bounds no event ever raises an open order's queue-ahead, and right after
   * a book it is at most what the book shows at that price.
   */
  lemma AheadNeverGrows(st: SimState, e: Event, id: int)
    requires Inv(st) && st.bound != Exact && id in st.registry && id in Step(st, e).0.registry
    ensures var st' := Step(st, e).0;
      && QueueAhead(st, id).Some? && QueueAhead(st', id).Some?
      && QueueAhead(st', id).value <= QueueAhead(st, id).value
      && (e.BookUpdate? ==> QueueAhead(st', id).value <= VisibleIn(e.view, st.registry[id]))
  {
    hide Place, Cancel, OnTrade, OnBook, QueueAhead, LevelOk;
    var st', k := Step(st, e).0, st.registry[id];
    StepAccount(st, e, id);
    StepKeepsInv(st, e);
    AheadIsBefore(st, id);
    AheadIsBefore(st', id);
    match e
    case PlaceOrder(key, sz) => PlaceKeepsAhead(st, key, sz, k, id);
    case CancelOrder(gone, stale) => CancelKeepsAhead(st, gone, stale, k, id);
    case TradePrint(trade) => PrintKeepsAhead(st, trade, k, id);
    case BookUpdate(view, batch) => BookShrinksAhead(st, view, batch, k, id);
  }

  /** In EXACT mode a print never raises an open order's queue-ahead either; only the block's diffs can. */
  lemma ExactPrintShrinksAhead(st: SimState, trade: Trade, id: int)
    requires Inv(st) && id in st.registry && id in OnTrade(st, trade).0.registry
    ensures var st' := OnTrade(st, trade).0;
      QueueAhead(st, id).Some? && QueueAhead(st', id).Some? && QueueAhead(st', id).value <= QueueAhead(st, id).value
  {
    var st' := OnTrade(st, trade).0;
    OnTradeLaw(st, trade);
    OpenSizeAt(st, id);
    OpenSizeAt(st', id);
    var k := st.registry[id];
    assert LevelOk(st.bound, st.levels[k], st.nextId);
    if k in HitBy(st, trade) { PrintShrinksAhead(st.bound == Exact, st.levels[k], PrintOn(k, trade), st.nextId, id); }
  }
}
