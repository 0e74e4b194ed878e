/**
 * A block's prints on the whole simulator: the EXACT counter against a simulator that shrinks real volume at once,
 * and one print against the same size in two.
 */
module BlockPrints {
  import opened Schemas
  import opened Fifo
  import opened FifoLaws
  import opened LazyConsumption
  import opened QueueState
  import opened QueueInvariant
  import opened Bracket
  import opened Priority

  // ---------- lazy against eager ----------

  /** The simulator that takes what the block's prints consumed off the queues at once. */
  function Twin(st: SimState): SimState {
    st.(bound := Pessimistic, levels := map k | k in st.levels :: EagerState(st.levels[k]))
  }

  lemma TwinShows(st: SimState, id: int)
    ensures QueueAhead(Twin(st), id) == QueueAhead(st, id)
  {
    if id in st.registry && st.registry[id] in st.levels {
      var s := st.levels[st.registry[id]];
      LazyAhead(s.queue, s.consumed, id);
      RealAheadFresh(EagerState(s).queue, id);
    }
  }

  lemma {:induction false} EagerQuoted(q: Queue, consumed: Size)
    ensures Quoted(Eager(q, consumed)) <==> Quoted(q)
  {
    if q != [] { EagerQuoted(q[1..], if q[0].Own? then consumed else consumed - Min(q[0].sz, consumed)); }
  }

  lemma TwinLevels(st: SimState, side: Side)
    ensures LevelsBestFirst(Twin(st).levels, side) == LevelsBestFirst(st.levels, side)
  {
    var levels := Twin(st).levels;
    assert (set k | k in levels && k.side == side :: Rank(side, k.px)) ==
           (set k | k in st.levels && k.side == side :: Rank(side, k.px));
  }

  /** An order the walk empties is one the sweep removes. */
  lemma EmptiedAfter(exact: bool, s: LevelState, p: Print, hi: int, id: int)
    requires Ascending(s.queue, 0, hi)
    ensures id in Emptied(Walk(exact, s, p).queue) <==>
      HasOwn(s.queue, id) && !HasOwn(AfterPrint(exact, s, p).queue, id)
  {
    hide Walk, AfterPrint;
    AfterPrintLaw(exact, s, p, 0, hi, id);
  }

  lemma SameEmptied(s: LevelState, p: Print, hi: int)
    requires Ascending(s.queue, 0, hi)
    ensures Emptied(Walk(false, EagerState(s), p).queue) == Emptied(Walk(true, s, p).queue)
  {
    hide Walk, AfterPrint, Eager;
    EagerOrder(s.queue, s.consumed, 0, hi);
    PrintCommutes(s, p);
    var after := AfterPrint(true, s, p);
    forall id ensures id in Emptied(Walk(false, EagerState(s), p).queue) <==> id in Emptied(Walk(true, s, p).queue) {
      EmptiedAfter(false, EagerState(s), p, hi, id);
      EmptiedAfter(true, s, p, hi, id);
      EagerOrders(s.queue, s.consumed, id);
      EagerOrders(after.queue, after.consumed, id);
    }
  }

  lemma TwinKeeps(levels: map<Key, LevelState>, key: Key, s: LevelState)
    ensures var eager := (m: map<Key, LevelState>) => map k | k in m :: EagerState(m[k]);
      DropIfUnquoted(eager(levels)[key := EagerState(s)], key) == eager(DropIfUnquoted(levels[key := s], key))
  {
    hide Eager, Quoted;
    EagerQuoted(s.queue, s.consumed);
  }

  lemma {:induction false} TwinEmits(st: SimState, key: Key, trade: Trade, parts: seq<PartFill>)
    ensures EmitAll(Twin(st), key, trade, parts) == EmitAll(st, key, trade, parts)
  {
    if parts != [] { TwinEmits(st, key, trade, parts[1..]); }
  }

  lemma TwinOnLevel(st: SimState, key: Key, trade: Trade)
    requires Inv(st) && st.bound == Exact && key in st.levels
    ensures OnLevel(Twin(st), key, trade) == (Twin(OnLevel(st, key, trade).0), OnLevel(st, key, trade).1)
  {
    hide Walk, AfterPrint, Emptied, DropIfUnquoted, EmitAll, PrintOn;
    var s, p := st.levels[key], PrintOn(key, trade);
    assert LevelOk(st.bound, s, st.nextId);
    PrintCommutes(s, p);
    SameEmptied(s, p, st.nextId);
    TwinKeeps(st.levels, key, AfterPrint(true, s, p));
    TwinEmits(st, key, trade, Walk(true, s, p).fills);
  }

  lemma {:induction false} TwinOnLevels(st: SimState, keys: seq<Key>, trade: Trade)
    requires Inv(st) && st.bound == Exact
    ensures OnLevels(Twin(st), keys, trade) == (Twin(OnLevels(st, keys, trade).0), OnLevels(st, keys, trade).1)
    decreases keys
  {
    hide OnLevel, Inv;
    if keys != [] {
      if keys[0] !in st.levels || !TradeReaches(keys[0].side, keys[0].px, trade.px) {
        TwinOnLevels(st, keys[1..], trade);
      } else {
        OnLevelLaw(st, keys[0], trade);
        TwinOnLevel(st, keys[0], trade);
        TwinOnLevels(OnLevel(st, keys[0], trade).0, keys[1..], trade);
      }
    }
  }

  /** One print: the EXACT simulator emits what its eager twin emits, and their states stay twins. */
  lemma TwinOnTrade(st: SimState, trade: Trade)
    requires Inv(st) && st.bound == Exact
    ensures OnTrade(Twin(st), trade) == (Twin(OnTrade(st, trade).0), OnTrade(st, trade).1)
  {
    hide OnLevels, LevelsBestFirst;
    if trade.coin == st.coin {
      TwinLevels(st, RestingSideHit(trade.side));
      TwinOnLevels(st, LevelsBestFirst(st.levels, RestingSideHit(trade.side)), trade);
    }
  }

  predicate PrintsOnly(es: seq<Event>) {
    forall e :: e in es ==> e.TradePrint?
  }

  /**
   * Over any prints of a block, at whatever prices, the EXACT simulator emits fill for fill what its eager twin
   * emits, and every order reports the same queue-ahead afterwards.
   */
  lemma {:induction false} BlockIsEager(st: SimState, es: seq<Event>, id: int)
    requires Inv(st) && st.bound == Exact && PrintsOnly(es)
    ensures var (lazy, fills) := Run(st, es); var (eager, fills') := Run(Twin(st), es);
      && fills' == fills && eager == Twin(lazy) && QueueAhead(eager, id) == QueueAhead(lazy, id)
      && Inv(lazy) && lazy.bound == Exact
  {
    hide Inv, OnTrade, Twin, QueueAhead;
    if es == [] {
      TwinShows(st, id);
    } else {
      var n := |es| - 1;
      assert es[n] in es;
      BlockIsEager(st, es[..n], id);
      var before := Run(st, es[..n]).0;
      TwinOnTrade(before, es[n].trade);
      OnTradeLaw(before, es[n].trade);
      TwinShows(OnTrade(before, es[n].trade).0, id);
    }
  }

  // ---------- a print in two ----------

  /** A print of some size of the trade. */
  function Sized(trade: Trade, sz: Size): Trade {
    trade.(sz := sz)
  }

  lemma PaidNothing(st: SimState, trade: Trade, id: int)
    requires Inv(st) && id !in st.registry
    ensures FilledSize(OnTrade(st, trade).1, id) == 0.0 && id !in OnTrade(st, trade).0.registry
  {
    StepAccount(st, TradePrint(trade), id);
  }

  /** At the print's own price. */
  lemma SplitHere(st: SimState, trade: Trade, s1: Size, s2: Size, k: Key, id: int)
    requires Inv(st) && Registered(st.registry, k, id) && k in HitBy(st, trade) && !TradeThrough(k.side, k.px, trade.px)
    ensures var (st1, fills1) := OnTrade(st, Sized(trade, s1));
      FilledSize(fills1, id) + FilledSize(OnTrade(st1, Sized(trade, s2)).1, id) ==
      FilledSize(OnTrade(st, Sized(trade, s1 + s2)).1, id)
  {
    hide OnTrade, Walk, AfterPrint, FilledSize, LevelOk, FillsOf;
    var exact, s := st.bound == Exact, st.levels[k];
    var st1 := OnTrade(st, Sized(trade, s1)).0;
    PaidByItsLevel(st, Sized(trade, s1), k, id);
    PaidByItsLevel(st, Sized(trade, s1 + s2), k, id);
    OnTradeLaw(st, Sized(trade, s1));
    InOrder(st.bound, s, st.nextId);
    SplitPrint(exact, s, s1, s2, 0, st.nextId, id);
    TwoPrints(exact, s, s1, s2, id);
    OnePrint(exact, s, s1 + s2);
    var after := AfterPrint(exact, s, At(s1));
    AfterPrintLaw(exact, s, At(s1), 0, st.nextId, id);
    if id in st1.registry {
      StaysRegistered(st, st1, k, id);
      PaidByItsLevel(st1, Sized(trade, s2), k, id);
      assert st1.levels[k] == after;
    } else {
      PaidNothing(st1, Sized(trade, s2), id);
      if HasOwn(after.queue, id) { StillOpen(st, Sized(trade, s1), k, id); }
      AscendingBounds(after.queue, 0, st.nextId, id);
      AfterPrintLaw(exact, after, At(s2), 0, st.nextId, id);
    }
  }

  lemma StaysRegistered(st: SimState, st1: SimState, k: Key, id: int)
    requires Registered(st.registry, k, id) && OnlyFilledLeave(st, st1) && Inv(st1) && id in st1.registry
    ensures Registered(st1.registry, k, id) && k in st1.levels
  {
    assert Lists(st1.levels, k, id);
  }

  lemma StillOpen(st: SimState, trade: Trade, k: Key, id: int)
    requires Inv(st) && Registered(st.registry, k, id) && k in HitBy(st, trade)
    requires HasOwn(LevelAfter(st, k, trade).queue, id)
    ensures id in OnTrade(st, trade).0.registry
  {
    hide OnTrade, AfterPrint;
    OnTradeLaw(st, trade);
    var st' := OnTrade(st, trade).0;
    HasOwnQuoted(LevelAfter(st, k, trade).queue, id);
    assert Lists(st'.levels, k, id);
    assert Registered(st'.registry, k, id);
  }

  lemma OffItsLevel(st: SimState, st1: SimState, k: Key, id: int)
    requires Registered(st.registry, k, id) && OnlyFilledLeave(st, st1) && Inv(st1) && k !in st1.levels
    ensures id !in st1.registry
  {
    assert !Lists(st1.levels, k, id);
    assert !Registered(st1.registry, k, id);
  }

  /**
   * A print pays every order what two prints of its size at the same price pay it in all, in every mode and whether
   * the order stands at the price, at a better one that the print trades through, or elsewhere.
   */
  lemma SplitTrade(st: SimState, trade: Trade, s1: Size, s2: Size, id: int)
    requires Inv(st)
    ensures var (st1, fills1) := OnTrade(st, Sized(trade, s1)); var (st2, fills2) := OnTrade(st1, Sized(trade, s2));
      var (whole, fills) := OnTrade(st, Sized(trade, s1 + s2));
      FilledSize(fills1 + fills2, id) == FilledSize(fills, id) && OpenSize(st2, id) == OpenSize(whole, id)
  {
    hide OnTrade, FilledSize, OpenSize;
    var (st1, fills1) := OnTrade(st, Sized(trade, s1));
    var fills2 := OnTrade(st1, Sized(trade, s2)).1;
    OnTradeLaw(st, Sized(trade, s1));
    OnTradeLaw(st, Sized(trade, s1 + s2));
    OnTradeLaw(st1, Sized(trade, s2));
    FillsAppend(fills1, fills2, id);
    SplitPaid(st, trade, s1, s2, id);
  }

  lemma SplitPaid(st: SimState, trade: Trade, s1: Size, s2: Size, id: int)
    requires Inv(st)
    ensures var (st1, fills1) := OnTrade(st, Sized(trade, s1));
      FilledSize(fills1, id) + FilledSize(OnTrade(st1, Sized(trade, s2)).1, id) ==
      FilledSize(OnTrade(st, Sized(trade, s1 + s2)).1, id)
  {
    hide OnTrade, FilledSize;
    var st1 := OnTrade(st, Sized(trade, s1)).0;
    OnTradeLaw(st, Sized(trade, s1));
    if id !in st.registry {
      PaidNothing(st, Sized(trade, s1), id);
      PaidNothing(st, Sized(trade, s1 + s2), id);
      PaidNothing(st1, Sized(trade, s2), id);
    } else {
      var k := st.registry[id];
      if k !in HitBy(st, trade) {
        SplitElsewhere(st, trade, s1, s2, k, id);
      } else if TradeThrough(k.side, k.px, trade.px) {
        SplitThrough(st, trade, s1, s2, k, id);
      } else {
        SplitHere(st, trade, s1, s2, k, id);
      }
    }
  }

  lemma SplitElsewhere(st: SimState, trade: Trade, s1: Size, s2: Size, k: Key, id: int)
    requires Inv(st) && Registered(st.registry, k, id) && k !in HitBy(st, trade)
    ensures var (st1, fills1) := OnTrade(st, Sized(trade, s1));
      FilledSize(fills1, id) + FilledSize(OnTrade(st1, Sized(trade, s2)).1, id) ==
      FilledSize(OnTrade(st, Sized(trade, s1 + s2)).1, id)
  {
    hide OnTrade, FilledSize;
    var st1 := OnTrade(st, Sized(trade, s1)).0;
    UnreachedStands(st, Sized(trade, s1), k, id);
    UnreachedStands(st, Sized(trade, s1 + s2), k, id);
    OnTradeLaw(st, Sized(trade, s1));
    assert Lists(st.levels, k, id);
    assert Lists(st1.levels, k, id);
    UnreachedStands(st1, Sized(trade, s2), k, id);
  }

  lemma SplitThrough(st: SimState, trade: Trade, s1: Size, s2: Size, k: Key, id: int)
    requires Inv(st) && Registered(st.registry, k, id) && k in HitBy(st, trade) && TradeThrough(k.side, k.px, trade.px)
    ensures var (st1, fills1) := OnTrade(st, Sized(trade, s1));
      FilledSize(fills1, id) + FilledSize(OnTrade(st1, Sized(trade, s2)).1, id) ==
      FilledSize(OnTrade(st, Sized(trade, s1 + s2)).1, id)
  {
    hide OnTrade, FilledSize;
    var st1 := OnTrade(st, Sized(trade, s1)).0;
    ThroughFills(st, Sized(trade, s1), k, id);
    ThroughFills(st, Sized(trade, s1 + s2), k, id);
    OnTradeLaw(st, Sized(trade, s1));
    OffItsLevel(st, st1, k, id);
    PaidNothing(st1, Sized(trade, s2), id);
  }
}
