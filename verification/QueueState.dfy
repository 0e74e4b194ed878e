/**
 * The maker simulator as a state and a step function: what place, cancel, a print
 * and a book update make of it. `QueueSim` carries this state out on objects.
 */
module QueueState {
  import opened Schemas
  import opened Fifo
  import opened Sorting

  datatype Stats = Stats(fills: nat, volume: Size, staleEvictions: nat, crossedUnfilled: nat,
                         untrackedDiffs: nat, placedBlind: nat)

  datatype SimState = SimState(coin: Coin, bound: Bound, nextId: int, registry: map<int, Key>,
                               levels: map<Key, LevelState>, view: Option<BookView>,
                               lastHeight: Option<int>, stats: Stats)

  function Init(coin: Coin, bound: Bound): SimState {
    SimState(coin, bound, 1, map[], map[], None, None, Stats(0, 0.0, 0, 0, 0, 0))
  }

  // ---------- placing and cancelling ----------

  /** The visible size per price; a repeated row overwrites the earlier one. */
  function DepthMap(rows: seq<Row>): map<Price, Size> {
    if rows == [] then map[] else
      var last := rows[|rows| - 1];
      DepthMap(rows[..|rows| - 1])[last.px := last.sz]
  }

  function VisibleIn(view: BookView, key: Key): Size {
    var depth := DepthMap(view.Rows(key.side));
    if key.px in depth then depth[key.px] else 0.0
  }

  /** The visible size at a price; nothing is visible before the first book. */
  function Visible(view: Option<BookView>, key: Key): Size {
    if view.None? then 0.0 else VisibleIn(view.value, key)
  }

  function RealSegments(orders: seq<(int, Size)>): Queue {
    if orders == [] then [] else [Real(Some(orders[0].0), orders[0].1)] + RealSegments(orders[1..])
  }

  /** The order-level queue of a view that has one. */
  function OrdersAt(orders: map<Key, seq<(int, Size)>>, key: Key): seq<(int, Size)> {
    if key in orders then orders[key] else []
  }

  function SeedBlind(bound: Bound, view: Option<BookView>): bool {
    view.None? || (bound == Exact && view.value.orders.None?)
  }

  /** The real volume a new order joins behind. */
  function Seed(bound: Bound, view: Option<BookView>, key: Key): Queue {
    if SeedBlind(bound, view) then []
    else if bound == Exact then RealSegments(OrdersAt(view.value.orders.value, key))
    else
      var size := VisibleIn(view.value, key);
      if size > 0.0 then [Real(None, size)] else []
  }

  /** The level a new order at `key` joins. */
  function Joined(st: SimState, key: Key): LevelState {
    if key in st.levels then st.levels[key] else LevelState(Seed(st.bound, st.view, key), 0.0)
  }

  function Place(st: SimState, key: Key, sz: Size): SimState {
    var level := Joined(st, key);
    var blind := if key !in st.levels && SeedBlind(st.bound, st.view) then 1 else 0;
    st.(nextId := st.nextId + 1,
        levels := st.levels[key := level.(queue := level.queue + [Own(st.nextId, sz)])],
        registry := st.registry[st.nextId := key],
        stats := st.stats.(placedBlind := st.stats.placedBlind + blind))
  }

  function WithoutOwn(q: Queue, id: int): Queue {
    if q == [] then []
    else if q[0].Own? && q[0].id == id then WithoutOwn(q[1..], id)
    else [q[0]] + WithoutOwn(q[1..], id)
  }

  function DropIfUnquoted(levels: map<Key, LevelState>, key: Key): map<Key, LevelState> {
    if key in levels && !Quoted(levels[key].queue) then levels - {key} else levels
  }

  function Cancel(st: SimState, id: int, stale: bool): SimState {
    if id !in st.registry then st else
      var key := st.registry[id];
      var levels := if key !in st.levels then st.levels else
        DropIfUnquoted(st.levels[key := st.levels[key].(queue := WithoutOwn(st.levels[key].queue, id))], key);
      st.(registry := st.registry - {id}, levels := levels,
          stats := st.stats.(staleEvictions := st.stats.staleEvictions + if stale then 1 else 0))
  }

  // ---------- prints ----------

  /** The side a print consumes: a taker buy hits asks. */
  function RestingSideHit(aggressor: Side): Side {
    if aggressor == Bid then Ask else Bid
  }

  predicate TradeReaches(resting: Side, px: Price, tradePx: Price) {
    if resting == Bid then px >= tradePx else px <= tradePx
  }

  predicate TradeThrough(resting: Side, px: Price, tradePx: Price) {
    if resting == Bid then tradePx < px else tradePx > px
  }

  function KeysOf(ranks: seq<int>, side: Side): seq<Key> {
    seq(|ranks|, i requires 0 <= i < |ranks| => Key(side, Rank(side, ranks[i])))
  }

  function LevelsBestFirst(levels: map<Key, LevelState>, side: Side): seq<Key> {
    KeysOf(Listing(set k | k in levels && k.side == side :: Rank(side, k.px)), side)
  }

  function PrintOn(key: Key, trade: Trade): Print {
    if TradeThrough(key.side, key.px, trade.px) then Through else At(trade.sz)
  }

  function Emit(st: SimState, key: Key, trade: Trade, part: PartFill): Fill {
    Fill(part.id, key.side, key.px, part.sz, trade.tMs,
         if st.lastHeight.Some? then Some(st.lastHeight.value + 1) else None, part.ahead,
         if st.view.Some? then st.view.value.Mid() else None)
  }

  function EmitAll(st: SimState, key: Key, trade: Trade, parts: seq<PartFill>): seq<Fill> {
    if parts == [] then [] else [Emit(st, key, trade, parts[0])] + EmitAll(st, key, trade, parts[1..])
  }

  function OnLevel(st: SimState, key: Key, trade: Trade): (SimState, seq<Fill>)
    requires key in st.levels
  {
    var exact := st.bound == Exact;
    var walked := Walk(exact, st.levels[key], PrintOn(key, trade));
    var after := AfterPrint(exact, st.levels[key], PrintOn(key, trade));
    (st.(levels := DropIfUnquoted(st.levels[key := after], key),
         registry := st.registry - Emptied(walked.queue),
         stats := st.stats.(fills := st.stats.fills + |walked.fills|,
                            volume := st.stats.volume + FilledTotal(walked.fills))),
     EmitAll(st, key, trade, walked.fills))
  }

  function OnLevels(st: SimState, keys: seq<Key>, trade: Trade): (SimState, seq<Fill>)
    decreases keys
  {
    if keys == [] then (st, [])
    else if keys[0] !in st.levels || !TradeReaches(keys[0].side, keys[0].px, trade.px) then
      OnLevels(st, keys[1..], trade)
    else
      var (st1, fills1) := OnLevel(st, keys[0], trade);
      var (st2, fills2) := OnLevels(st1, keys[1..], trade);
      (st2, fills1 + fills2)
  }

  function OnTrade(st: SimState, trade: Trade): (SimState, seq<Fill>) {
    if trade.coin != st.coin then (st, [])
    else OnLevels(st, LevelsBestFirst(st.levels, RestingSideHit(trade.side)), trade)
  }

  // ---------- book updates ----------

  predicate HasOid(q: Queue, oid: int) {
    q != [] && (q[0] == Real(Some(oid), q[0].sz) || HasOid(q[1..], oid))
  }

  /** Removes the first real segment of order `oid`. */
  function RemoveOid(q: Queue, oid: int): Queue {
    if q == [] then []
    else if q[0] == Real(Some(oid), q[0].sz) then q[1..]
    else [q[0]] + RemoveOid(q[1..], oid)
  }

  /** Resizes the first real segment of order `oid` where it stands. */
  function ResizeOid(q: Queue, oid: int, sz: Size): Queue {
    if q == [] then []
    else if q[0] == Real(Some(oid), q[0].sz) then [Real(Some(oid), sz)] + q[1..]
    else [q[0]] + ResizeOid(q[1..], oid, sz)
  }

  function DiffQueue(q: Queue, diff: BookDiff): Queue {
    match diff.kind
    case New(sz) => q + [Real(Some(diff.oid), if sz.None? then 0.0 else sz.value)]
    case Remove => RemoveOid(q, diff.oid)
    case Update(_, newSz) =>
      if newSz.None? || newSz.value <= 0.0 then RemoveOid(q, diff.oid) else ResizeOid(q, diff.oid, newSz.value)
  }

  function ApplyDiff(st: SimState, diff: BookDiff): SimState {
    if diff.key !in st.levels then st else
      var level := st.levels[diff.key];
      if !diff.kind.New? && !HasOid(level.queue, diff.oid) then
        st.(stats := st.stats.(untrackedDiffs := st.stats.untrackedDiffs + 1))
      else
        st.(levels := st.levels[diff.key := level.(queue := DiffQueue(level.queue, diff))])
  }

  function ApplyDiffs(st: SimState, diffs: seq<BookDiff>): SimState {
    if diffs == [] then st
    else ApplyDiff(ApplyDiffs(st, diffs[..|diffs| - 1]), diffs[|diffs| - 1])
  }

  /** The block's diffs settle what its prints consumed. */
  function Settled(levels: map<Key, LevelState>): map<Key, LevelState> {
    map k | k in levels :: levels[k].(consumed := 0.0)
  }

  function ReconcileAll(bound: Bound, levels: map<Key, LevelState>, view: BookView): map<Key, LevelState> {
    map k | k in levels :: levels[k].(queue := Reconcile(bound, levels[k].queue, VisibleIn(view, k)))
  }

  predicate Crossed(view: BookView, key: Key) {
    if key.side == Bid then view.asks != [] && key.px >= view.asks[0].px
    else view.bids != [] && key.px <= view.bids[0].px
  }

  function CrossedOrders(st: SimState, view: BookView): set<int> {
    set id | id in st.registry && Crossed(view, st.registry[id])
  }

  function OnBook(st: SimState, view: BookView, batch: Option<BlockDiffBatch>): SimState {
    var st1 := st.(view := Some(view), lastHeight := if batch.Some? then Some(batch.value.height) else st.lastHeight);
    var st2 := if st.bound == Exact then
                 if batch.Some? then ApplyDiffs(st1.(levels := Settled(st1.levels)), batch.value.diffs) else st1
               else st1.(levels := ReconcileAll(st.bound, st1.levels, view));
    st2.(stats := st2.stats.(crossedUnfilled := st2.stats.crossedUnfilled + |CrossedOrders(st2, view)|))
  }

  // ---------- reads ----------

  function QueueAhead(st: SimState, id: int): Option<Size> {
    if id in st.registry && st.registry[id] in st.levels then
      var level := st.levels[st.registry[id]];
      Some(RealAhead(level.queue, level.consumed, id))
    else None
  }

  /** What is still open of order `id`; 0 once it has left. */
  function OpenSize(st: SimState, id: int): Size {
    if id in st.registry && st.registry[id] in st.levels then Remaining(st.levels[st.registry[id]].queue, id) else 0.0
  }

  // ---------- runs ----------

  datatype Event =
    | PlaceOrder(key: Key, sz: Size)
    | CancelOrder(id: int, stale: bool)
    | TradePrint(trade: Trade)
    | BookUpdate(view: BookView, batch: Option<BlockDiffBatch>)

  function Step(st: SimState, e: Event): (SimState, seq<Fill>) {
    match e
    case PlaceOrder(key, sz) => (Place(st, key, sz), [])
    case CancelOrder(id, stale) => (Cancel(st, id, stale), [])
    case TradePrint(trade) => OnTrade(st, trade)
    case BookUpdate(view, batch) => (OnBook(st, view, batch), [])
  }

  /** The state after a run and every fill it emitted, in order. */
  function Run(st: SimState, es: seq<Event>): (SimState, seq<Fill>) {
    if es == [] then (st, []) else
      var (st1, fills1) := Run(st, es[..|es| - 1]);
      var (st2, fills2) := Step(st1, es[|es| - 1]);
      (st2, fills1 + fills2)
  }

  function FilledSize(fills: seq<Fill>, id: int): Size {
    if fills == [] then 0.0
    else (if fills[0].orderId == id then fills[0].sz else 0.0) + FilledSize(fills[1..], id)
  }

  function VolumeOf(fills: seq<Fill>): Size {
    if fills == [] then 0.0 else fills[0].sz + VolumeOf(fills[1..])
  }

  /** The orders a script places; the n-th gets id n. */
  function Placements(es: seq<Event>): seq<(Key, Size)> {
    if es == [] then [] else
      var earlier := Placements(es[..|es| - 1]);
      if es[|es| - 1].PlaceOrder? then earlier + [(es[|es| - 1].key, es[|es| - 1].sz)] else earlier
  }

  /** The size order `id` was placed with; 0 when the script never places it. */
  function PlacedSize(es: seq<Event>, id: int): Size {
    if 1 <= id <= |Placements(es)| then Placements(es)[id - 1].1 else 0.0
  }

  predicate EverCancels(es: seq<Event>, id: int) {
    es != [] && (es[|es| - 1] == CancelOrder(id, true) || es[|es| - 1] == CancelOrder(id, false)
                 || EverCancels(es[..|es| - 1], id))
  }
}
