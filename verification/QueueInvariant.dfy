/** What every step of the simulator keeps, what a print does to every level, and where every order's size goes. */
module QueueInvariant {
  import opened Schemas
  import opened Fifo
  import opened FifoLaws
  import opened ReconcileLaws
  import opened Sorting
  import opened QueueState

  ghost predicate Lists(levels: map<Key, LevelState>, k: Key, id: int) {
    k in levels && HasOwn(levels[k].queue, id)
  }

  ghost predicate Registered(registry: map<int, Key>, k: Key, id: int) {
    id in registry && registry[id] == k
  }

  ghost predicate LevelOk(bound: Bound, level: LevelState, nextId: int) {
    Ascending(level.queue, 0, nextId) && Quoted(level.queue) && (bound != Exact ==> level.consumed == 0.0)
  }

  /**
   * Own segments stand in placement order and only once per id, every tracked level is quoted,
   * and an id is registered at a level exactly when that level holds its segment.
   */
  ghost predicate Inv(st: SimState) {
    && 1 <= st.nextId
    && (forall k :: k in st.levels ==> LevelOk(st.bound, st.levels[k], st.nextId))
    && (forall k, id :: Lists(st.levels, k, id) <==> Registered(st.registry, k, id))
  }

  ghost predicate SameSetting(st: SimState, st': SimState) {
    st'.coin == st.coin && st'.bound == st.bound && st'.view == st.view && st'.lastHeight == st.lastHeight
  }

  // ---------- one level ----------

  lemma AfterPrintLaw(exact: bool, s: LevelState, p: Print, lo: int, hi: int, id: int)
    requires Ascending(s.queue, lo, hi)
    ensures var w := Walk(exact, s, p); var after := AfterPrint(exact, s, p);
      Ascending(after.queue, lo, hi) && (!exact ==> after.consumed == s.consumed) &&
      (HasOwn(after.queue, id) <==> HasOwn(s.queue, id) && id !in Emptied(w.queue)) &&
      (id in Emptied(w.queue) ==> HasOwn(s.queue, id)) &&
      FilledOf(w.fills, id) + Remaining(after.queue, id) == Remaining(s.queue, id) &&
      (HasOwn(s.queue, id) && !HasOwn(after.queue, id) ==> Remaining(after.queue, id) == 0.0)
  {
    var w := Walk(exact, s, p);
    var skip := if exact then s.consumed else 0.0;
    match p
    case At(sz) =>
      WalkAtPays(exact, s.queue, sz, skip, 0.0, lo, hi, id);
      if !exact { WalkAtLaw(s.queue, sz, 0.0, id); }
      SweepLaw(exact, w.queue, lo, hi, id);
      AscendingBounds(Sweep(exact, w.queue), lo, hi, id);
    case Through =>
      WalkThroughPays(exact, s.queue, skip, 0.0, lo, hi, id);
      SweepLaw(exact, w.queue, lo, hi, id);
      AscendingBounds(Sweep(exact, w.queue), lo, hi, id);
  }

  lemma {:induction false} EmitAllSums(st: SimState, key: Key, trade: Trade, parts: seq<PartFill>, id: int)
    ensures var fills := EmitAll(st, key, trade, parts);
      |fills| == |parts| && FilledSize(fills, id) == FilledOf(parts, id) && VolumeOf(fills) == FilledTotal(parts)
  {
    if parts != [] { EmitAllSums(st, key, trade, parts[1..], id); }
  }

  lemma {:induction false} FillsAppend(a: seq<Fill>, b: seq<Fill>, id: int)
    ensures FilledSize(a + b, id) == FilledSize(a, id) + FilledSize(b, id)
    ensures VolumeOf(a + b) == VolumeOf(a) + VolumeOf(b)
  {
    if a == [] { assert a + b == b; } else {
      assert (a + b)[1..] == a[1..] + b;
      FillsAppend(a[1..], b, id);
    }
  }

  // ---------- one print on one level ----------

  ghost function LevelAfter(st: SimState, k: Key, trade: Trade): LevelState
    requires k in st.levels
  {
    AfterPrint(st.bound == Exact, st.levels[k], PrintOn(k, trade))
  }

  /** The levels in `hit` carry the print, unless nothing of ours is left there; every other level is untouched. */
  ghost predicate LevelsCarry(st: SimState, st': SimState, trade: Trade, hit: set<Key>) {
    forall k :: if k in hit && k in st.levels
      then (k in st'.levels <==> Quoted(LevelAfter(st, k, trade).queue)) &&
        (k in st'.levels ==> st'.levels[k] == LevelAfter(st, k, trade))
      else (k in st'.levels <==> k in st.levels) && (k in st'.levels ==> st'.levels[k] == st.levels[k])
  }

  /** What an order loses it is paid, and the counters count it. */
  ghost predicate Conserves(st: SimState, st': SimState, fills: seq<Fill>) {
    && (forall id :: FilledSize(fills, id) + OpenSize(st', id) == OpenSize(st, id))
    && st'.stats.fills == st.stats.fills + |fills|
    && st'.stats.volume == st.stats.volume + VolumeOf(fills)
  }

  /** A print removes orders only when they are filled. */
  ghost predicate OnlyFilledLeave(st: SimState, st': SimState) {
    forall id :: id in st'.registry ==> id in st.registry && st.registry[id] == st'.registry[id]
  }

  lemma OnLevelKeepsRegistry(st: SimState, key: Key, trade: Trade, k: Key, id: int)
    requires Inv(st) && key in st.levels
    ensures var st' := OnLevel(st, key, trade).0;
      Lists(st'.levels, k, id) <==> Registered(st'.registry, k, id)
  {
    var s := st.levels[key];
    var w := Walk(st.bound == Exact, s, PrintOn(key, trade));
    var after := LevelAfter(st, key, trade);
    AfterPrintLaw(st.bound == Exact, s, PrintOn(key, trade), 0, st.nextId, id);
    assert Lists(st.levels, k, id) <==> Registered(st.registry, k, id);
    assert Lists(st.levels, key, id) <==> Registered(st.registry, key, id);
    if HasOwn(after.queue, id) { HasOwnQuoted(after.queue, id); }
  }

  lemma OnLevelConserves(st: SimState, key: Key, trade: Trade, id: int)
    requires Inv(st) && key in st.levels
    ensures var (st', fills) := OnLevel(st, key, trade);
      FilledSize(fills, id) + OpenSize(st', id) == OpenSize(st, id)
  {
    var s := st.levels[key];
    var w := Walk(st.bound == Exact, s, PrintOn(key, trade));
    var after := LevelAfter(st, key, trade);
    AfterPrintLaw(st.bound == Exact, s, PrintOn(key, trade), 0, st.nextId, id);
    EmitAllSums(st, key, trade, w.fills, id);
    assert Lists(st.levels, key, id) <==> Registered(st.registry, key, id);
    AscendingBounds(s.queue, 0, st.nextId, id);
    if HasOwn(after.queue, id) { HasOwnQuoted(after.queue, id); }
  }

  lemma OnLevelLaw(st: SimState, key: Key, trade: Trade)
    requires Inv(st) && key in st.levels
    ensures var (st', fills) := OnLevel(st, key, trade);
      Inv(st') && SameSetting(st, st') && st'.nextId == st.nextId && LevelsCarry(st, st', trade, {key}) &&
      Conserves(st, st', fills) && OnlyFilledLeave(st, st')
  {
    var (st', fills) := OnLevel(st, key, trade);
    forall k, id ensures Lists(st'.levels, k, id) <==> Registered(st'.registry, k, id) {
      OnLevelKeepsRegistry(st, key, trade, k, id);
    }
    forall id ensures FilledSize(fills, id) + OpenSize(st', id) == OpenSize(st, id) {
      OnLevelConserves(st, key, trade, id);
    }
    AfterPrintLaw(st.bound == Exact, st.levels[key], PrintOn(key, trade), 0, st.nextId, 0);
    EmitAllSums(st, key, trade, Walk(st.bound == Exact, st.levels[key], PrintOn(key, trade)).fills, 0);
  }

  // ---------- one print on the book ----------

  ghost predicate Distinct(keys: seq<Key>) {
    forall i, j :: 0 <= i < j < |keys| ==> keys[i] != keys[j]
  }

  ghost function Reached(keys: seq<Key>, trade: Trade): set<Key> {
    set k | k in keys && TradeReaches(k.side, k.px, trade.px)
  }

  lemma {:induction false} OnLevelsLaw(st: SimState, keys: seq<Key>, trade: Trade)
    requires Inv(st) && Distinct(keys)
    ensures var (st', fills) := OnLevels(st, keys, trade);
      Inv(st') && SameSetting(st, st') && st'.nextId == st.nextId &&
      LevelsCarry(st, st', trade, Reached(keys, trade)) && Conserves(st, st', fills) && OnlyFilledLeave(st, st')
    decreases keys
  {
    hide Inv, OnLevel, LevelsCarry, Conserves, TradeReaches;
    if keys == [] {
      NothingReached(st, trade);
    } else {
      var k0, rest := keys[0], keys[1..];
      assert k0 !in rest by { assert forall i :: 1 <= i < |keys| ==> keys[0] != keys[i]; }
      assert forall k :: k in keys <==> k == k0 || k in rest;
      if k0 !in st.levels || !TradeReaches(k0.side, k0.px, trade.px) {
        OnLevelsLaw(st, rest, trade);
        if TradeReaches(k0.side, k0.px, trade.px) {
          assert Reached(keys, trade) == {k0} + Reached(rest, trade);
          CarryUntracked(st, OnLevels(st, rest, trade).0, trade, k0, Reached(rest, trade));
        } else {
          assert Reached(keys, trade) == Reached(rest, trade);
        }
      } else {
        var (st1, fills1) := OnLevel(st, k0, trade);
        var (st2, fills2) := OnLevels(st1, rest, trade);
        OnLevelLaw(st, k0, trade);
        OnLevelsLaw(st1, rest, trade);
        CarryCompose(st, st1, st2, trade, k0, Reached(rest, trade));
        assert Reached(keys, trade) == {k0} + Reached(rest, trade);
        ConservesCompose(st, st1, st2, fills1, fills2);
      }
    }
  }

  lemma NothingReached(st: SimState, trade: Trade)
    ensures LevelsCarry(st, st, trade, {}) && Conserves(st, st, []) && Reached([], trade) == {}
  {}

  lemma CarryUntracked(st: SimState, st': SimState, trade: Trade, k0: Key, hit: set<Key>)
    requires LevelsCarry(st, st', trade, hit) && k0 !in st.levels
    ensures LevelsCarry(st, st', trade, {k0} + hit)
  {}

  lemma CarryCompose(st: SimState, st1: SimState, st2: SimState, trade: Trade, k0: Key, hit: set<Key>)
    requires LevelsCarry(st, st1, trade, {k0}) && LevelsCarry(st1, st2, trade, hit) && k0 !in hit
    requires st1.bound == st.bound
    ensures LevelsCarry(st, st2, trade, {k0} + hit)
  {}

  lemma ConservesCompose(st: SimState, st1: SimState, st2: SimState, fills1: seq<Fill>, fills2: seq<Fill>)
    requires Conserves(st, st1, fills1) && Conserves(st1, st2, fills2)
    ensures Conserves(st, st2, fills1 + fills2)
  {
    forall id ensures FilledSize(fills1 + fills2, id) + OpenSize(st2, id) == OpenSize(st, id) {
      FillsAppend(fills1, fills2, id);
    }
    FillsAppend(fills1, fills2, 0);
  }

  ghost function Ranks(levels: map<Key, LevelState>, side: Side): set<int> {
    set k | k in levels && k.side == side :: Rank(side, k.px)
  }

  lemma BestFirstOrder(levels: map<Key, LevelState>, side: Side)
    ensures var keys := LevelsBestFirst(levels, side);
      forall i, j :: 0 <= i < j < |keys| ==> Rank(side, keys[i].px) < Rank(side, keys[j].px)
  {
    var listing := Listing(Ranks(levels, side));
    var keys := LevelsBestFirst(levels, side);
    assert keys == KeysOf(listing, side);
    assert forall i :: 0 <= i < |keys| ==> Rank(side, keys[i].px) == listing[i];
  }

  lemma KeysOfLaw(ranks: seq<int>, side: Side, k: Key)
    ensures k in KeysOf(ranks, side) <==> k.side == side && Rank(side, k.px) in ranks
  {
    var keys := KeysOf(ranks, side);
    if k in keys {
      var i :| 0 <= i < |keys| && keys[i] == k;
      assert ranks[i] in ranks;
    }
    if k.side == side && Rank(side, k.px) in ranks {
      var i :| 0 <= i < |ranks| && ranks[i] == Rank(side, k.px);
      assert keys[i] == k;
    }
  }

  lemma RanksHold(levels: map<Key, LevelState>, side: Side, k: Key)
    requires k.side == side
    ensures Rank(side, k.px) in Ranks(levels, side) <==> k in levels
  {}

  lemma BestFirstMembers(levels: map<Key, LevelState>, side: Side, k: Key)
    ensures k in LevelsBestFirst(levels, side) <==> k in levels && k.side == side
  {
    hide KeysOf, Rank;
    assert LevelsBestFirst(levels, side) == KeysOf(Listing(Ranks(levels, side)), side);
    KeysOfLaw(Listing(Ranks(levels, side)), side, k);
    if k.side == side { RanksHold(levels, side, k); }
  }

  /** The levels a side tracks, each once and best price first. */
  lemma BestFirstLaw(levels: map<Key, LevelState>, side: Side)
    ensures var keys := LevelsBestFirst(levels, side);
      Distinct(keys) && (forall k :: k in keys <==> k in levels && k.side == side) &&
      forall i, j :: 0 <= i < j < |keys| ==> Rank(side, keys[i].px) < Rank(side, keys[j].px)
  {
    BestFirstOrder(levels, side);
    forall k ensures k in LevelsBestFirst(levels, side) <==> k in levels && k.side == side {
      BestFirstMembers(levels, side, k);
    }
  }

  /** The levels a print reaches: the hit side, at the print's price or better. */
  ghost function HitBy(st: SimState, trade: Trade): set<Key> {
    set k | k in st.levels && trade.coin == st.coin && k.side == RestingSideHit(trade.side) &&
    TradeReaches(k.side, k.px, trade.px)
  }

  lemma OnTradeLaw(st: SimState, trade: Trade)
    requires Inv(st)
    ensures var (st', fills) := OnTrade(st, trade);
      Inv(st') && SameSetting(st, st') && st'.nextId == st.nextId &&
      LevelsCarry(st, st', trade, HitBy(st, trade)) && Conserves(st, st', fills) && OnlyFilledLeave(st, st')
  {
    if trade.coin == st.coin {
      var side := RestingSideHit(trade.side);
      var keys := LevelsBestFirst(st.levels, side);
      BestFirstLaw(st.levels, side);
      OnLevelsLaw(st, keys, trade);
      assert Reached(keys, trade) == HitBy(st, trade);
    }
  }

  // ---------- placing and cancelling ----------

  lemma {:induction false} RealSegmentsLaw(orders: seq<(int, Size)>, hi: int, id: int)
    ensures Ascending(RealSegments(orders), 0, hi) && !HasOwn(RealSegments(orders), id)
  {
    if orders != [] { RealSegmentsLaw(orders[1..], hi, id); }
  }

  lemma SeedLaw(bound: Bound, view: Option<BookView>, key: Key, hi: int, id: int)
    ensures var q := Seed(bound, view, key);
      Ascending(q, 0, hi) && !HasOwn(q, id) && (bound != Exact ==> RealSize(q) == Visible(view, key) == TotalSize(q))
  {
    if !SeedBlind(bound, view) && bound == Exact {
      RealSegmentsLaw(OrdersAt(view.value.orders.value, key), hi, id);
    }
  }

  lemma PlaceKeepsRegistry(st: SimState, key: Key, sz: Size, k: Key, id: int)
    requires Inv(st)
    ensures var st' := Place(st, key, sz);
      (Lists(st'.levels, k, id) <==> Registered(st'.registry, k, id)) &&
      OpenSize(st', id) == (if id == st.nextId then sz else OpenSize(st, id)) &&
      (id == st.nextId ==> id !in st.registry)
  {
    var q := Joined(st, key).queue;
    SeedLaw(st.bound, st.view, key, st.nextId, id);
    assert Ascending(q, 0, st.nextId);
    AppendLaw(q, Own(st.nextId, sz), 0, st.nextId, id);
    AscendingBounds(q, 0, st.nextId, id);
    assert Lists(st.levels, k, id) <==> Registered(st.registry, k, id);
    assert Lists(st.levels, key, id) <==> Registered(st.registry, key, id);
    if id in st.registry {
      var k' := st.registry[id];
      assert Registered(st.registry, k', id);
      assert Lists(st.levels, k', id);
      AscendingBounds(st.levels[k'].queue, 0, st.nextId, id);
    }
  }

  lemma PlaceLaw(st: SimState, key: Key, sz: Size)
    requires Inv(st)
    ensures var st' := Place(st, key, sz);
      Inv(st') && SameSetting(st, st') && st'.nextId == st.nextId + 1 &&
      st.nextId !in st.registry && st'.registry == st.registry[st.nextId := key] &&
      forall id :: OpenSize(st', id) == if id == st.nextId then sz else OpenSize(st, id)
  {
    var st' := Place(st, key, sz);
    forall k, id ensures Lists(st'.levels, k, id) <==> Registered(st'.registry, k, id) {
      PlaceKeepsRegistry(st, key, sz, k, id);
    }
    forall id ensures OpenSize(st', id) == if id == st.nextId then sz else OpenSize(st, id) {
      PlaceKeepsRegistry(st, key, sz, key, id);
    }
    PlaceKeepsRegistry(st, key, sz, key, st.nextId);
    var q := Joined(st, key).queue;
    SeedLaw(st.bound, st.view, key, st.nextId, 0);
    AppendLaw(q, Own(st.nextId, sz), 0, st.nextId, st.nextId);
    HasOwnQuoted(q + [Own(st.nextId, sz)], st.nextId);
    forall k | k in st'.levels ensures LevelOk(st.bound, st'.levels[k], st'.nextId) {
      if k != key { Weaken(st.levels[k].queue, 0, 0, st.nextId, st.nextId + 1); }
    }
  }

  lemma {:induction false} WithoutOwnLaw(q: Queue, gone: int, lo: int, hi: int, id: int)
    requires Ascending(q, lo, hi)
    ensures var r := WithoutOwn(q, gone);
      Ascending(r, lo, hi) && (HasOwn(r, id) <==> HasOwn(q, id) && id != gone) &&
      Remaining(r, id) == (if id == gone then 0.0 else Remaining(q, id)) &&
      (id != gone && HasOwn(q, id) ==> RealBefore(r, id) == RealBefore(q, id)) && RealSize(r) == RealSize(q) &&
      (id < gone && HasOwn(q, id) ==> VolumeAhead(r, id) == VolumeAhead(q, id))
  {
    if q != [] {
      var lo' := if q[0].Own? then q[0].id else lo;
      WithoutOwnLaw(q[1..], gone, lo', hi, id);
      AscendingBounds(q[1..], lo', hi, id);
      Weaken(WithoutOwn(q[1..], gone), lo, lo', hi, hi);
    }
  }

  lemma CancelKeepsRegistry(st: SimState, gone: int, stale: bool, k: Key, id: int)
    requires Inv(st)
    ensures var st' := Cancel(st, gone, stale);
      (Lists(st'.levels, k, id) <==> Registered(st'.registry, k, id)) &&
      OpenSize(st', id) == if id == gone then 0.0 else OpenSize(st, id)
  {
    if gone in st.registry {
      var key := st.registry[gone];
      assert Registered(st.registry, key, gone);
      assert Lists(st.levels, key, gone);
      var q := st.levels[key].queue;
      WithoutOwnLaw(q, gone, 0, st.nextId, id);
      assert Lists(st.levels, k, id) <==> Registered(st.registry, k, id);
      assert Lists(st.levels, key, id) <==> Registered(st.registry, key, id);
      if HasOwn(WithoutOwn(q, gone), id) { HasOwnQuoted(WithoutOwn(q, gone), id); }
    }
  }

  lemma CancelLaw(st: SimState, gone: int, stale: bool)
    requires Inv(st)
    ensures var st' := Cancel(st, gone, stale);
      Inv(st') && SameSetting(st, st') && st'.nextId == st.nextId && st'.registry == st.registry - {gone} &&
      st'.stats.fills == st.stats.fills && st'.stats.volume == st.stats.volume &&
      (forall id :: OpenSize(st', id) == if id == gone then 0.0 else OpenSize(st, id))
  {
    var st' := Cancel(st, gone, stale);
    forall k, id ensures Lists(st'.levels, k, id) <==> Registered(st'.registry, k, id) {
      CancelKeepsRegistry(st, gone, stale, k, id);
    }
    forall id ensures OpenSize(st', id) == if id == gone then 0.0 else OpenSize(st, id) {
      CancelKeepsRegistry(st, gone, stale, Key(Bid, 0), id);
    }
    if gone in st.registry {
      var key := st.registry[gone];
      assert Lists(st.levels, key, gone);
      WithoutOwnLaw(st.levels[key].queue, gone, 0, st.nextId, 0);
    }
  }

  // ---------- book updates ----------

  lemma {:induction false} OidLaw(q: Queue, oid: int, sz: Size, lo: int, hi: int, id: int)
    requires Ascending(q, lo, hi)
    ensures var r := RemoveOid(q, oid);
      Ascending(r, lo, hi) && (HasOwn(r, id) <==> HasOwn(q, id)) && Remaining(r, id) == Remaining(q, id)
    ensures var r := ResizeOid(q, oid, sz);
      Ascending(r, lo, hi) && (HasOwn(r, id) <==> HasOwn(q, id)) && Remaining(r, id) == Remaining(q, id)
  {
    if q != [] {
      OidLaw(q[1..], oid, sz, if q[0].Own? then q[0].id else lo, hi, id);
    }
  }

  lemma DiffQueueLaw(q: Queue, diff: BookDiff, hi: int, id: int)
    requires Ascending(q, 0, hi)
    ensures var r := DiffQueue(q, diff);
      Ascending(r, 0, hi) && (HasOwn(r, id) <==> HasOwn(q, id)) && Remaining(r, id) == Remaining(q, id)
  {
    match diff.kind
    case New(sz) => AppendLaw(q, Real(Some(diff.oid), if sz.None? then 0.0 else sz.value), 0, hi, id);
    case Remove => OidLaw(q, diff.oid, 0.0, 0, hi, id);
    case Update(_, newSz) =>
      OidLaw(q, diff.oid, if newSz.Some? && newSz.value > 0.0 then newSz.value else 0.0, 0, hi, id);
  }

  /** `after` tracks the same levels with the same virtual orders in them. */
  ghost predicate SameOrders(before: map<Key, LevelState>, after: map<Key, LevelState>, bound: Bound, nextId: int) {
    after.Keys == before.Keys &&
    forall k :: k in before ==>
      Ascending(after[k].queue, 0, nextId) && (bound != Exact ==> after[k].consumed == 0.0) &&
      forall id :: (HasOwn(after[k].queue, id) <==> HasOwn(before[k].queue, id)) &&
                   Remaining(after[k].queue, id) == Remaining(before[k].queue, id)
  }

  lemma SameOrdersKeepInv(st: SimState, st': SimState)
    requires Inv(st) && SameOrders(st.levels, st'.levels, st.bound, st.nextId)
    requires st'.bound == st.bound && st'.registry == st.registry && st'.nextId == st.nextId
    ensures Inv(st') && forall id :: OpenSize(st', id) == OpenSize(st, id)
  {
    forall k, id ensures Lists(st'.levels, k, id) <==> Registered(st'.registry, k, id) {
      assert Lists(st.levels, k, id) <==> Registered(st.registry, k, id);
    }
    forall k | k in st'.levels ensures Quoted(st'.levels[k].queue) {
      assert LevelOk(st.bound, st.levels[k], st.nextId);
      var id := QuotedHasOwn(st.levels[k].queue);
      HasOwnQuoted(st'.levels[k].queue, id);
    }
  }

  lemma ReconcileAllLaw(st: SimState, view: BookView)
    requires Inv(st) && st.bound != Exact
    ensures SameOrders(st.levels, ReconcileAll(st.bound, st.levels, view), st.bound, st.nextId)
  {
    var after := ReconcileAll(st.bound, st.levels, view);
    forall k, id | k in st.levels
      ensures Ascending(after[k].queue, 0, st.nextId)
      ensures (HasOwn(after[k].queue, id) <==> HasOwn(st.levels[k].queue, id)) &&
        Remaining(after[k].queue, id) == Remaining(st.levels[k].queue, id)
    {
      assert LevelOk(st.bound, st.levels[k], st.nextId);
      ReconcileLaw(st.bound, st.levels[k].queue, VisibleIn(view, k), 0, st.nextId, id);
    }
    forall k | k in st.levels ensures Ascending(after[k].queue, 0, st.nextId) && after[k].consumed == 0.0 {
      assert LevelOk(st.bound, st.levels[k], st.nextId);
      ReconcileLaw(st.bound, st.levels[k].queue, VisibleIn(view, k), 0, st.nextId, 0);
    }
  }

  lemma ApplyDiffLaw(st: SimState, diff: BookDiff)
    requires Inv(st) && st.bound == Exact
    ensures var st' := ApplyDiff(st, diff);
      SameOrders(st.levels, st'.levels, st.bound, st.nextId) && SameSetting(st, st') && st'.nextId == st.nextId &&
      st'.registry == st.registry && st'.stats.fills == st.stats.fills && st'.stats.volume == st.stats.volume
  {
    if diff.key in st.levels {
      assert LevelOk(st.bound, st.levels[diff.key], st.nextId);
      forall id
        ensures var r := DiffQueue(st.levels[diff.key].queue, diff);
          (HasOwn(r, id) <==> HasOwn(st.levels[diff.key].queue, id)) &&
          Remaining(r, id) == Remaining(st.levels[diff.key].queue, id)
      {
        DiffQueueLaw(st.levels[diff.key].queue, diff, st.nextId, id);
      }
      DiffQueueLaw(st.levels[diff.key].queue, diff, st.nextId, 0);
    }
    assert forall k :: k in st.levels ==> LevelOk(st.bound, st.levels[k], st.nextId);
  }

  lemma {:induction false} ApplyDiffsLaw(st: SimState, diffs: seq<BookDiff>)
    requires Inv(st) && st.bound == Exact
    ensures var st' := ApplyDiffs(st, diffs);
      Inv(st') && SameSetting(st, st') && st'.nextId == st.nextId && st'.registry == st.registry &&
      st'.stats.fills == st.stats.fills && st'.stats.volume == st.stats.volume && st'.levels.Keys == st.levels.Keys &&
      forall id :: OpenSize(st', id) == OpenSize(st, id)
  {
    if diffs != [] {
      var n := |diffs| - 1;
      ApplyDiffsLaw(st, diffs[..n]);
      var st1 := ApplyDiffs(st, diffs[..n]);
      ApplyDiffLaw(st1, diffs[n]);
      SameOrdersKeepInv(st1, ApplyDiff(st1, diffs[n]));
    }
  }

  lemma OnBookLaw(st: SimState, view: BookView, batch: Option<BlockDiffBatch>)
    requires Inv(st)
    ensures var st' := OnBook(st, view, batch);
      Inv(st') && st'.coin == st.coin && st'.bound == st.bound && st'.nextId == st.nextId &&
      st'.registry == st.registry &&
      st'.view == Some(view) && st'.levels.Keys == st.levels.Keys &&
      st'.stats.fills == st.stats.fills && st'.stats.volume == st.stats.volume &&
      (st.bound != Exact ==> st'.levels == ReconcileAll(st.bound, st.levels, view)) &&
      forall id :: OpenSize(st', id) == OpenSize(st, id)
  {
    var st1 := st.(view := Some(view), lastHeight := if batch.Some? then Some(batch.value.height) else st.lastHeight);
    if st.bound != Exact {
      ReconcileAllLaw(st, view);
      SameOrdersKeepInv(st, OnBook(st, view, batch));
    } else if batch.Some? {
      var st2 := st1.(levels := Settled(st1.levels));
      assert forall k :: k in st.levels ==> LevelOk(st.bound, st.levels[k], st.nextId);
      SameOrdersKeepInv(st, st2);
      ApplyDiffsLaw(st2, batch.value.diffs);
      var st3 := ApplyDiffs(st2, batch.value.diffs);
      SameInv(st3, OnBook(st, view, batch));
    } else {
      SameInv(st, OnBook(st, view, batch));
    }
  }

  lemma SameInv(st: SimState, st': SimState)
    requires Inv(st) && st' == st.(view := st'.view, lastHeight := st'.lastHeight, stats := st'.stats)
    ensures Inv(st') && forall id :: OpenSize(st', id) == OpenSize(st, id)
  {
    forall k, id ensures Lists(st'.levels, k, id) <==> Registered(st'.registry, k, id) {
      assert Lists(st.levels, k, id) <==> Registered(st.registry, k, id);
    }
  }

  // ---------- whole runs ----------

  /** One step of any kind keeps the invariant. */
  lemma StepKeepsInv(st: SimState, e: Event)
    requires Inv(st)
    ensures var (st', fills) := Step(st, e);
      Inv(st') && st'.coin == st.coin && st'.bound == st.bound &&
      st'.nextId == st.nextId + (if e.PlaceOrder? then 1 else 0) &&
      st'.stats.fills == st.stats.fills + |fills| && st'.stats.volume == st.stats.volume + VolumeOf(fills)
  {
    match e
    case PlaceOrder(key, sz) => PlaceLaw(st, key, sz);
    case CancelOrder(id, stale) => CancelLaw(st, id, stale);
    case TradePrint(trade) => OnTradeLaw(st, trade);
    case BookUpdate(view, batch) => OnBookLaw(st, view, batch);
  }

  /** In a queue in order, an order it holds has exactly one segment, and that segment is its remaining size. */
  lemma {:induction false} OneSegment(q: Queue, lo: int, hi: int, id: int) returns (at: int)
    requires Ascending(q, lo, hi) && HasOwn(q, id)
    ensures 0 <= at < |q| && q[at] == Own(id, Remaining(q, id))
    ensures forall i :: 0 <= i < |q| && q[i].Own? && q[i].id == id ==> i == at
  {
    var lo' := if q[0].Own? then q[0].id else lo;
    if q[0].Own? && q[0].id == id {
      at := 0;
      NoSegment(q[1..], lo', hi, id);
      assert forall i :: 1 <= i < |q| ==> q[i] == q[1..][i - 1];
    } else {
      var at' := OneSegment(q[1..], lo', hi, id);
      at := at' + 1;
      assert forall i :: 1 <= i < |q| ==> q[i] == q[1..][i - 1];
    }
  }

  lemma {:induction false} NoSegment(q: Queue, lo: int, hi: int, id: int)
    requires Ascending(q, lo, hi) && id <= lo
    ensures forall i :: 0 <= i < |q| && q[i].Own? ==> q[i].id != id
  {
    if q != [] {
      NoSegment(q[1..], if q[0].Own? then q[0].id else lo, hi, id);
      assert forall i :: 1 <= i < |q| ==> q[i] == q[1..][i - 1];
    }
  }

  /** After any run: the structure holds and the two fill counters count exactly what was emitted. */
  lemma {:induction false} RunInvariant(coin: Coin, bound: Bound, es: seq<Event>)
    ensures var (st, fills) := Run(Init(coin, bound), es);
      Inv(st) && st.coin == coin && st.bound == bound && st.nextId == |Placements(es)| + 1 &&
      st.stats.fills == |fills| && st.stats.volume == VolumeOf(fills)
  {
    if es == [] {
      var st := Init(coin, bound);
      assert forall k, id :: Lists(st.levels, k, id) <==> Registered(st.registry, k, id);
    } else {
      var n := |es| - 1;
      RunInvariant(coin, bound, es[..n]);
      var (st1, fills1) := Run(Init(coin, bound), es[..n]);
      StepKeepsInv(st1, es[n]);
      FillsAppend(fills1, Step(st1, es[n]).1, 0);
    }
  }

  /** One step's account of order `id`: outside its own placing and cancelling, what it loses it is paid. */
  lemma StepAccount(st: SimState, e: Event, id: int)
    requires Inv(st)
    ensures var (st', fills) := Step(st, e);
      match e
      case CancelOrder(gone, _) =>
        && fills == [] && (id in st'.registry <==> id in st.registry && id != gone)
        && (id != gone ==> OpenSize(st', id) == OpenSize(st, id))
      case PlaceOrder(_, sz) =>
        && fills == [] && (id in st'.registry <==> id in st.registry || id == st.nextId)
        && OpenSize(st', id) == (if id == st.nextId then sz else OpenSize(st, id))
      case _ =>
        && FilledSize(fills, id) + OpenSize(st', id) == OpenSize(st, id)
        && (id in st'.registry ==> id in st.registry)
    ensures var st' := Step(st, e).0;
      id in st.registry && id in st'.registry ==> st'.registry[id] == st.registry[id]
    ensures id !in st.registry ==> OpenSize(st, id) == 0.0
    ensures id in st.registry ==> id < st.nextId
  {
    if id in st.registry {
      var k := st.registry[id];
      assert Registered(st.registry, k, id);
      assert Lists(st.levels, k, id);
      AscendingBounds(st.levels[k].queue, 0, st.nextId, id);
    }
    match e
    case PlaceOrder(key, sz) => PlaceLaw(st, key, sz);
    case CancelOrder(gone, stale) => CancelLaw(st, gone, stale);
    case TradePrint(trade) => OnTradeLaw(st, trade);
    case BookUpdate(view, batch) => OnBookLaw(st, view, batch);
  }

  /**
   * Where order `id` of a run stands. While open its fills and its remainder make up the size it was
   * placed with; it leaves only filled in full or cancelled; no order is ever overfilled.
   */
  lemma {:induction false} OrderAccount(coin: Coin, bound: Bound, es: seq<Event>, id: int)
    ensures var (st, fills) := Run(Init(coin, bound), es);
      var orders, filled := Placements(es), FilledSize(fills, id);
      if 1 <= id <= |orders| then
        && (id in st.registry ==> st.registry[id] == orders[id - 1].0 && filled + OpenSize(st, id) == orders[id - 1].1)
        && (id !in st.registry && !EverCancels(es, id) ==> filled == orders[id - 1].1)
        && filled <= orders[id - 1].1
      else id !in st.registry && filled == 0.0
  {
    if es != [] {
      var n := |es| - 1;
      OrderAccount(coin, bound, es[..n], id);
      RunInvariant(coin, bound, es[..n]);
      var (st1, fills1) := Run(Init(coin, bound), es[..n]);
      var (st2, fills2) := Step(st1, es[n]);
      StepKeepsInv(st1, es[n]);
      FillsAppend(fills1, fills2, id);
      StepAccount(st1, es[n], id);
      StepAccount(st2, es[n], id);
    }
  }
}
