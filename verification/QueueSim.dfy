/** The simulator as objects: `QueueSim` and its `Level`s, each method proved to carry out its step of `QueueState`. */
module Simulator {
  import opened Schemas
  import opened Fifo
  import opened Sorting
  import Spec = QueueState
  import Invariant = QueueInvariant

  /** Tracked state of one price we quote at. */
  class Level {
    var queue: Queue
    var consumedInBlock: Size

    constructor ()
      ensures queue == [] && consumedInBlock == 0.0
    {
      queue := [];
      consumedInBlock := 0.0;
    }

    ghost function State(): LevelState
      reads this
    {
      LevelState(queue, consumedInBlock)
    }
  }

  // ---------- sums over prefixes ----------

  lemma {:induction false} EmitAllAppend(st: Spec.SimState, key: Key, trade: Trade, parts: seq<PartFill>, p: PartFill)
    ensures Spec.EmitAll(st, key, trade, parts + [p]) ==
      Spec.EmitAll(st, key, trade, parts) + [Spec.Emit(st, key, trade, p)]
    ensures FilledTotal(parts + [p]) == FilledTotal(parts) + p.sz
  {
    if parts == [] { assert parts + [p] == [p]; } else {
      assert (parts + [p])[1..] == parts[1..] + [p];
      EmitAllAppend(st, key, trade, parts[1..], p);
    }
  }

  lemma {:induction false} EmptiedAppend(q: Queue, s: Segment)
    ensures Emptied(q + [s]) == Emptied(q) + if s.Own? && s.sz <= 0.0 then {s.id} else {}
  {
    if q == [] { assert q + [s] == [s]; } else {
      assert (q + [s])[1..] == q[1..] + [s];
      EmptiedAppend(q[1..], s);
    }
  }

  // ---------- one segment of a walk ----------

  lemma ReplaceNext(done: Queue, t: Queue, x: Segment)
    requires t != []
    ensures (done + t)[|done|] == t[0] && (done + t)[|done| := x] == done + [x] + t[1..]
  {}

  lemma ReplaceLast(left: Queue, done: Queue, x: Segment)
    requires left != []
    ensures var n := |left| - 1;
      && (left + done)[n] == left[n] && (left + done)[n := x] == left[..n] + ([x] + done)
      && (left[..n] + ([x] + done))[n] == x
  {}

  /** Where a walk stands: `done` is settled, `left` is still to come, `paid` and `used` are accounted for. */
  ghost predicate Remains(whole: Walked, done: Queue, paid: seq<PartFill>, used: Size, rest: Walked) {
    whole.queue == done + rest.queue && whole.fills == paid + rest.fills && whole.consumed == used + rest.consumed
  }

  lemma AtReal(
      exact: bool, left: Queue, budget: Size, skip: Size, ahead: Size, whole: Walked, done: Queue, paid: seq<PartFill>,
      used: Size)
    requires left != [] && left[0].Real? && budget > 0.0
    requires Remains(whole, done, paid, used, WalkAt(exact, left, budget, skip, ahead))
    ensures var already := if exact then Min(left[0].sz, skip) else 0.0;
      var take := Min(budget, left[0].sz - already);
      Remains(whole, done + [if exact then left[0] else Real(left[0].oid, left[0].sz - take)],
              paid, used + if exact then take else 0.0,
              WalkAt(exact, left[1..], budget - take, skip - already, ahead + left[0].sz - already))
  {}

  lemma AtOwn(
      exact: bool, left: Queue, budget: Size, skip: Size, ahead: Size, whole: Walked, done: Queue, paid: seq<PartFill>,
      used: Size)
    requires left != [] && left[0].Own? && budget > 0.0
    requires Remains(whole, done, paid, used, WalkAt(exact, left, budget, skip, ahead))
    ensures var take := Min(budget, left[0].sz);
      Remains(whole, done + [Own(left[0].id, left[0].sz - take)],
              if take > 0.0 then paid + [PartFill(left[0].id, take, ahead)] else paid, used,
              WalkAt(exact, left[1..], budget - take, skip, ahead))
  {}

  lemma ThroughSegment(
      exact: bool, left: Queue, skip: Size, ahead: Size, whole: Walked, done: Queue, paid: seq<PartFill>)
    requires left != [] && Remains(whole, done, paid, 0.0, WalkThrough(exact, left, skip, ahead))
    ensures left[0].Real? ==>
      var already := if exact then Min(left[0].sz, skip) else 0.0;
      Remains(whole, done + [left[0]], paid, 0.0,
              WalkThrough(exact, left[1..], skip - already, ahead + left[0].sz - already))
    ensures left[0].Own? ==>
      Remains(whole, done + [Own(left[0].id, 0.0)],
              if left[0].sz > 0.0 then paid + [PartFill(left[0].id, left[0].sz, ahead)] else paid, 0.0,
              WalkThrough(exact, left[1..], skip, ahead))
  {}

  /** `rest` is what is still to be done of `whole` once `fills` are out. */
  ghost predicate Owed(whole: (Spec.SimState, seq<Fill>), fills: seq<Fill>, rest: (Spec.SimState, seq<Fill>)) {
    whole.0 == rest.0 && whole.1 == fills + rest.1
  }

  lemma OnLevelsStep(
      st: Spec.SimState, keys: seq<Key>, trade: Trade, whole: (Spec.SimState, seq<Fill>), fills: seq<Fill>)
    requires Owed(whole, fills, Spec.OnLevels(st, keys, trade))
    ensures keys == [] ==> whole == (st, fills)
    ensures keys != [] && keys[0] in st.levels ==>
      if Spec.TradeReaches(keys[0].side, keys[0].px, trade.px) then
        var (st1, fills1) := Spec.OnLevel(st, keys[0], trade);
        Owed(whole, fills + fills1, Spec.OnLevels(st1, keys[1..], trade))
      else Owed(whole, fills, Spec.OnLevels(st, keys[1..], trade))
  {
    hide Spec.OnLevel;
    assert fills + [] == fills;
  }

  // ---------- one segment of a removal ----------

  lemma FrontStep(left: Queue, volume: Size)
    requires left != []
    ensures var take := if left[0].Own? then 0.0 else Min(left[0].sz, volume);
      RemoveFront(left, volume) ==
      [if left[0].Own? then left[0] else Real(left[0].oid, left[0].sz - take)] + RemoveFront(left[1..], volume - take)
  {}

  /** `left` is still to be walked for `volume`; what stands behind it is `done`. */
  ghost predicate BackRemains(whole: Queue, left: Queue, volume: Size, done: Queue) {
    whole == RemoveBack(left, volume) + done
  }

  lemma BackStart(q: Queue, volume: Size)
    ensures BackRemains(RemoveBack(q, volume), q, volume, [])
  {
    assert RemoveBack(q, volume) + [] == RemoveBack(q, volume);
  }

  lemma BackStep(whole: Queue, left: Queue, volume: Size, done: Queue)
    requires left != [] && BackRemains(whole, left, volume, done)
    ensures var n := |left| - 1;
      if left[n].Own? then BackRemains(whole, left[..n], volume, [left[n]] + done)
      else
        var take := Min(left[n].sz, volume);
        BackRemains(whole, left[..n], volume - take, [Real(left[n].oid, left[n].sz - take)] + done)
  {
    var n := |left| - 1;
    var take := if left[n].Own? then 0.0 else Min(left[n].sz, volume);
    var last := if left[n].Own? then left[n] else Real(left[n].oid, left[n].sz - take);
    assert RemoveBack(left, volume) == RemoveBack(left[..n], volume - take) + [last];
    assert RemoveBack(left[..n], volume - take) + [last] + done ==
      RemoveBack(left[..n], volume - take) + ([last] + done);
  }

  lemma NothingRemoved(q: Queue)
    ensures RemoveFront(q, 0.0) == q && RemoveBack(q, 0.0) == q
  {
    NothingRemovedFront(q);
    NothingRemovedBack(q);
  }

  lemma {:induction false} NothingRemovedFront(q: Queue)
    ensures RemoveFront(q, 0.0) == q
  {
    if q != [] {
      NothingRemovedFront(q[1..]);
      assert q == [q[0]] + q[1..];
    }
  }

  lemma {:induction false} NothingRemovedBack(q: Queue)
    ensures RemoveBack(q, 0.0) == q
  {
    if q != [] {
      NothingRemovedBack(q[..|q| - 1]);
      assert q == q[..|q| - 1] + [q[|q| - 1]];
    }
  }

  ghost predicate FirstAt(q: Queue, oid: int, at: nat) {
    at < |q| && q[at] == Real(Some(oid), q[at].sz) && forall i :: 0 <= i < at ==> q[i] != Real(Some(oid), q[i].sz)
  }

  lemma {:induction false} FirstRemoved(q: Queue, oid: int, at: nat)
    requires FirstAt(q, oid, at)
    ensures Spec.HasOid(q, oid) && Spec.RemoveOid(q, oid) == q[..at] + q[at + 1..]
  {
    if at > 0 {
      assert forall i :: 0 <= i < at ==> q[1..][i] == q[i + 1];
      FirstRemoved(q[1..], oid, at - 1);
      assert [q[0]] + (q[1..][..at - 1] + q[1..][at..]) == q[..at] + q[at + 1..];
    }
  }

  lemma {:induction false} FirstResized(q: Queue, oid: int, at: nat, sz: Size)
    requires FirstAt(q, oid, at)
    ensures Spec.ResizeOid(q, oid, sz) == q[at := Real(Some(oid), sz)]
  {
    if at > 0 {
      assert forall i :: 0 <= i < at ==> q[1..][i] == q[i + 1];
      FirstResized(q[1..], oid, at - 1, sz);
      assert [q[0]] + q[1..][at - 1 := Real(Some(oid), sz)] == q[at := Real(Some(oid), sz)];
    } else {
      assert [Real(Some(oid), sz)] + q[1..] == q[0 := Real(Some(oid), sz)];
    }
  }

  lemma {:induction false} NoOid(q: Queue, oid: int)
    requires forall i :: 0 <= i < |q| ==> q[i] != Real(Some(oid), q[i].sz)
    ensures !Spec.HasOid(q, oid)
  {
    if q != [] {
      assert forall i :: 0 <= i < |q| - 1 ==> q[1..][i] == q[i + 1];
      NoOid(q[1..], oid);
    }
  }

  /** Virtual orders of one coin under one bound. */
  class QueueSim {
    const coin: Coin
    const bound: Bound
    var nextOrderId: int
    var registry: map<int, Key>
    var levels: map<Key, Level>
    var view: Option<BookView>
    var lastHeight: Option<int>
    var fillsCount: nat
    var filledVolume: Size
    var staleEvictions: nat
    var crossedUnfilled: nat
    var untrackedDiffs: nat
    var placedBlind: nat

    /** No two prices share a level object. */
    ghost predicate Valid()
      reads this`levels
    {
      forall k, l :: k in levels && l in levels && levels[k] == levels[l] ==> k == l
    }

    ghost function LevelStates(): map<Key, LevelState>
      reads this`levels, levels.Values
    {
      map k | k in levels :: levels[k].State()
    }

    ghost function State(): Spec.SimState
      reads this, levels.Values
    {
      Spec.SimState(coin, bound, nextOrderId, registry, LevelStates(), view, lastHeight,
                    Spec.Stats(fillsCount, filledVolume, staleEvictions, crossedUnfilled, untrackedDiffs, placedBlind))
    }

    constructor (coin: Coin, bound: Bound)
      ensures Valid() && State() == Spec.Init(coin, bound)
    {
      this.coin := coin;
      this.bound := bound;
      nextOrderId := 1;
      registry := map[];
      levels := map[];
      view := None;
      lastHeight := None;
      fillsCount := 0;
      filledVolume := 0.0;
      staleEvictions := 0;
      crossedUnfilled := 0;
      untrackedDiffs := 0;
      placedBlind := 0;
    }

    // ---------- placing and cancelling ----------

    lemma SegmentsFrom(orders: seq<(int, Size)>, i: nat)
      requires i <= |orders|
      ensures i == 0 ==> orders[i..] == orders
      ensures Spec.RealSegments(orders[i..]) ==
        if i == |orders| then [] else [Real(Some(orders[i].0), orders[i].1)] + Spec.RealSegments(orders[i + 1..])
    {
      assert i < |orders| ==> orders[i..][1..] == orders[i + 1..];
    }

    method SeedOrders(level: Level, orders: seq<(int, Size)>)
      requires level.queue == []
      modifies level`queue
      ensures level.queue == Spec.RealSegments(orders)
    {
      hide Spec.RealSegments;
      var i := 0;
      SegmentsFrom(orders, 0);
      while i < |orders|
        modifies level`queue
        invariant 0 <= i <= |orders|
        invariant level.queue + Spec.RealSegments(orders[i..]) == Spec.RealSegments(orders)
      {
        SegmentsFrom(orders, i);
        level.queue := level.queue + [Real(Some(orders[i].0), orders[i].1)];
        i := i + 1;
      }
      SegmentsFrom(orders, i);
    }

    method SeedReal(level: Level, key: Key)
      requires level.queue == []
      modifies level`queue, this`placedBlind
      ensures level.queue == Spec.Seed(bound, view, key)
      ensures placedBlind == old(placedBlind) + if Spec.SeedBlind(bound, view) then 1 else 0
    {
      if view.None? {
        placedBlind := placedBlind + 1;
        return;
      }
      if bound == Exact {
        if view.value.orders.None? {
          placedBlind := placedBlind + 1;
          return;
        }
        SeedOrders(level, Spec.OrdersAt(view.value.orders.value, key));
      } else {
        var size := Spec.VisibleIn(view.value, key);
        if size > 0.0 {
          level.queue := level.queue + [Real(None, size)];
        }
      }
    }

    method AddLevel(key: Key, level: Level)
      requires Valid() && key !in levels && level !in levels.Values
      modifies this`levels
      ensures Valid() && levels == old(levels)[key := level]
      ensures LevelStates() == old(LevelStates())[key := level.State()]
    {
      levels := levels[key := level];
    }

    /** The level tracked at `key`, seeded from the view when it is new. */
    method LevelAt(key: Key) returns (level: Level)
      requires Valid()
      modifies this`levels, this`placedBlind
      ensures Valid() && fresh(levels.Values - old(levels.Values))
      ensures key in levels && levels[key] == level
      ensures LevelStates() == old(LevelStates())[key := Spec.Joined(old(State()), key)]
      ensures level.queue == Spec.Joined(old(State()), key).queue
      ensures placedBlind == old(placedBlind) +
        if key !in old(LevelStates()) && Spec.SeedBlind(bound, view) then 1 else 0
    {
      hide Spec.Seed, Spec.SeedBlind;
      if key in levels {
        level := levels[key];
        assert LevelStates() == old(LevelStates())[key := level.State()];
      } else {
        level := new Level();
        SeedReal(level, key);
        AddLevel(key, level);
      }
    }

    /** Only `key`'s level object changed. */
    twostate lemma OneLevelChanged(key: Key)
      requires old(Valid()) && levels == old(levels) && key in levels
      requires forall k :: k in levels && k != key ==> levels[k].State() == old(levels[k].State())
      ensures LevelStates() == old(LevelStates())[key := levels[key].State()]
    {}

    /** Assigns one tracked level's segments; every other level keeps its own. */
    method SetQueue(key: Key, q: Queue)
      requires Valid() && key in levels
      modifies levels[key]
      ensures LevelStates() == old(LevelStates())[key := old(LevelStates())[key].(queue := q)]
    {
      levels[key].queue := q;
      OneLevelChanged(key);
    }

    method Place(key: Key, sz: Size, tMs: int) returns (orderId: int)
      requires Valid()
      modifies this, levels.Values
      ensures Valid() && fresh(levels.Values - old(levels.Values))
      ensures orderId == old(nextOrderId)
      ensures State() == Spec.Place(old(State()), key, sz)
    {
      hide Spec.Joined, Spec.SeedBlind, Valid, LevelStates;
      var level := LevelAt(key);
      orderId := nextOrderId;
      SetQueue(key, level.queue + [Own(orderId, sz)]);
      nextOrderId := nextOrderId + 1;
      registry := registry[orderId := key];
    }

    method DropLevelIfUnquoted(key: Key)
      requires Valid()
      modifies this`levels
      ensures Valid() && levels.Values <= old(levels.Values)
      ensures levels.Keys <= old(levels.Keys) && old(levels.Keys) - {key} <= levels.Keys
      ensures State() == old(State()).(levels := Spec.DropIfUnquoted(old(LevelStates()), key))
    {
      if key in levels && !Quoted(levels[key].queue) {
        levels := levels - {key};
      }
    }

    /** Takes our order off its level, and the level off the book of levels if nothing else of ours is there. */
    method RemoveOwn(key: Key, orderId: int)
      requires Valid() && key in levels
      modifies this`levels, levels.Values
      ensures Valid() && levels.Values <= old(levels.Values)
      ensures var before := old(LevelStates()); var level := before[key];
        LevelStates() ==
        Spec.DropIfUnquoted(before[key := level.(queue := Spec.WithoutOwn(level.queue, orderId))], key)
    {
      hide Spec.DropIfUnquoted, Spec.WithoutOwn;
      SetQueue(key, Spec.WithoutOwn(levels[key].queue, orderId));
      DropLevelIfUnquoted(key);
    }

    method Cancel(orderId: int, tMs: int, stale: bool) returns (pulled: bool)
      requires Valid()
      requires orderId in registry ==> registry[orderId] in levels
      modifies this, levels.Values
      ensures Valid() && levels.Values <= old(levels.Values)
      ensures pulled == (orderId in old(registry))
      ensures State() == Spec.Cancel(old(State()), orderId, stale)
    {
      hide Spec.DropIfUnquoted, Spec.WithoutOwn, Valid;
      if orderId !in registry {
        return false;
      }
      var key := registry[orderId];
      registry := registry - {orderId};
      RemoveOwn(key, orderId);
      if stale {
        staleEvictions := staleEvictions + 1;
      }
      pulled := true;
    }

    // ---------- prints ----------

    method Emit(key: Key, trade: Trade, part: PartFill, ghost st: Spec.SimState) returns (fill: Fill)
      requires st.lastHeight == lastHeight && st.view == view
      modifies this`fillsCount, this`filledVolume
      ensures fill == Spec.Emit(st, key, trade, part)
      ensures fillsCount == old(fillsCount) + 1 && filledVolume == old(filledVolume) + part.sz
    {
      fillsCount := fillsCount + 1;
      filledVolume := filledVolume + part.sz;
      fill := Fill(part.id, key.side, key.px, part.sz, trade.tMs,
                   if lastHeight.Some? then Some(lastHeight.value + 1) else None, part.ahead,
                   if view.Some? then view.value.Mid() else None);
    }

    method SweepFilled(level: Level)
      modifies level`queue, this`registry
      ensures level.queue == Sweep(bound == Exact, old(level.queue))
      ensures registry == old(registry) - Emptied(old(level.queue))
    {
      var i := 0;
      while i < |level.queue|
        modifies this`registry
        invariant 0 <= i <= |level.queue|
        invariant registry == old(registry) - Emptied(level.queue[..i])
      {
        var s := level.queue[i];
        assert level.queue[..i + 1] == level.queue[..i] + [s];
        EmptiedAppend(level.queue[..i], s);
        if s.Own? && s.sz <= 0.0 {
          registry := registry - {s.id};
        }
        i := i + 1;
      }
      assert level.queue[..i] == level.queue;
      level.queue := Sweep(bound == Exact, level.queue);
    }

    /** The whole level filled before a print at a worse price: all of ours there fills. */
    method FillThrough(level: Level, key: Key, trade: Trade, ghost st: Spec.SimState) returns (fills: seq<Fill>)
      requires st.lastHeight == lastHeight && st.view == view
      modifies level, this`fillsCount, this`filledVolume, this`registry
      ensures var w := Walk(bound == Exact, old(level.State()), Through);
        level.State() == AfterPrint(bound == Exact, old(level.State()), Through) &&
        fills == Spec.EmitAll(st, key, trade, w.fills) && registry == old(registry) - Emptied(w.queue) &&
        fillsCount == old(fillsCount) + |w.fills| && filledVolume == old(filledVolume) + FilledTotal(w.fills)
    {
      hide WalkThrough, Sweep, Emptied, Spec.Emit, Spec.EmitAll, FilledTotal;
      NoParts(st, key, trade);
      fills := [];
      var exact := bound == Exact;
      var arrivalAhead: Size := 0.0;
      var skip: Size := if exact then level.consumedInBlock else 0.0;
      ghost var left, done: Queue, parts: seq<PartFill> := level.queue, [], [];
      ghost var w := WalkThrough(exact, left, skip, 0.0);
      var i := 0;
      while i < |level.queue|
        modifies level`queue, this`fillsCount, this`filledVolume
        invariant i == |done| && level.queue == done + left
        invariant Remains(w, done, parts, 0.0, WalkThrough(exact, left, skip, arrivalAhead))
        invariant fills == Spec.EmitAll(st, key, trade, parts)
        invariant fillsCount == old(fillsCount) + |parts| && filledVolume == old(filledVolume) + FilledTotal(parts)
        decreases |left|
      {
        var segment := level.queue[i];
        ThroughSegment(exact, left, skip, arrivalAhead, w, done, parts);
        if segment.Real? {
          var already := if exact then Min(segment.sz, skip) else 0.0;
          skip := skip - already;
          arrivalAhead := arrivalAhead + segment.sz - already;
        } else {
          if segment.sz > 0.0 {
            var part := PartFill(segment.id, segment.sz, arrivalAhead);
            var fill := Emit(key, trade, part, st);
            fills := fills + [fill];
            EmitAllAppend(st, key, trade, parts, part);
            parts := parts + [part];
          }
          ReplaceNext(done, left, Own(segment.id, 0.0));
          level.queue := level.queue[i := Own(segment.id, 0.0)];
        }
        done, left := done + [level.queue[i]], left[1..];
        i := i + 1;
      }
      WalkThroughNil(exact, skip, arrivalAhead);
      assert w.fills == parts && w.queue == level.queue;
      SweepFilled(level);
    }

    /** Walks the merged FIFO from the front until the print's size is used up. */
    method FillAtPrice(level: Level, key: Key, trade: Trade, ghost st: Spec.SimState) returns (fills: seq<Fill>)
      requires st.lastHeight == lastHeight && st.view == view
      modifies level, this`fillsCount, this`filledVolume, this`registry
      ensures var w := Walk(bound == Exact, old(level.State()), At(trade.sz));
        level.State() == AfterPrint(bound == Exact, old(level.State()), At(trade.sz)) &&
        fills == Spec.EmitAll(st, key, trade, w.fills) && registry == old(registry) - Emptied(w.queue) &&
        fillsCount == old(fillsCount) + |w.fills| && filledVolume == old(filledVolume) + FilledTotal(w.fills)
    {
      hide WalkAt, Sweep, Emptied, Spec.Emit, Spec.EmitAll, FilledTotal;
      NoParts(st, key, trade);
      fills := [];
      var exact := bound == Exact;
      var budget: Size := trade.sz;
      var arrivalAhead: Size := 0.0;
      var skip: Size := if exact then level.consumedInBlock else 0.0;
      ghost var left, done: Queue, parts: seq<PartFill>, used: Size := level.queue, [], [], 0.0;
      ghost var w := WalkAt(exact, left, budget, skip, 0.0);
      var i := 0;
      while i < |level.queue| && budget > 0.0
        modifies level, this`fillsCount, this`filledVolume
        invariant i == |done| && level.queue == done + left
        invariant Remains(w, done, parts, used, WalkAt(exact, left, budget, skip, arrivalAhead))
        invariant level.consumedInBlock == old(level.consumedInBlock) + used
        invariant fills == Spec.EmitAll(st, key, trade, parts)
        invariant fillsCount == old(fillsCount) + |parts| && filledVolume == old(filledVolume) + FilledTotal(parts)
        decreases |left|
      {
        var segment := level.queue[i];
        if segment.Real? {
          AtReal(exact, left, budget, skip, arrivalAhead, w, done, parts, used);
          var already := if exact then Min(segment.sz, skip) else 0.0;
          skip := skip - already;
          var available := segment.sz - already;
          arrivalAhead := arrivalAhead + available;
          var take := Min(budget, available);
          if exact {
            level.consumedInBlock := level.consumedInBlock + take;
            used := used + take;
          } else {
            ReplaceNext(done, left, Real(segment.oid, segment.sz - take));
            level.queue := level.queue[i := Real(segment.oid, segment.sz - take)];
          }
          budget := budget - take;
        } else {
          AtOwn(exact, left, budget, skip, arrivalAhead, w, done, parts, used);
          var take := Min(budget, segment.sz);
          if take > 0.0 {
            var part := PartFill(segment.id, take, arrivalAhead);
            var fill := Emit(key, trade, part, st);
            fills := fills + [fill];
            EmitAllAppend(st, key, trade, parts, part);
            parts := parts + [part];
          }
          ReplaceNext(done, left, Own(segment.id, segment.sz - take));
          level.queue := level.queue[i := Own(segment.id, segment.sz - take)];
          budget := budget - take;
        }
        done, left := done + [level.queue[i]], left[1..];
        i := i + 1;
      }
      WalkAtDone(exact, left, budget, skip, arrivalAhead);
      assert w.fills == parts && w.queue == level.queue;
      SweepFilled(level);
    }

    /** One reached level: its fills, and the level dropped once nothing of ours is left there. */
    method PrintOnLevel(key: Key, trade: Trade) returns (fills: seq<Fill>)
      requires Valid() && key in levels
      modifies this, levels.Values
      ensures Valid() && levels.Keys <= old(levels.Keys) && old(levels.Keys) - {key} <= levels.Keys
      ensures levels.Values <= old(levels.Values)
      ensures (State(), fills) == Spec.OnLevel(old(State()), key, trade)
    {
      hide Valid, LevelStates, Walk, AfterPrint, Emptied, FilledTotal, Spec.EmitAll, Spec.DropIfUnquoted;
      ghost var st := State();
      LevelStateAt(key);
      var level := levels[key];
      if Spec.TradeThrough(key.side, key.px, trade.px) {
        fills := FillThrough(level, key, trade, st);
      } else {
        fills := FillAtPrice(level, key, trade, st);
      }
      OthersKept(key);
      DropLevelIfUnquoted(key);
    }

    lemma LevelStateAt(key: Key)
      requires key in levels
      ensures key in LevelStates() && LevelStates()[key] == levels[key].State()
    {}

    /** With one level object touched, only that level's state moved. */
    twostate lemma OthersKept(key: Key)
      requires old(Valid()) && levels == old(levels) && key in levels
      requires forall o: Level :: o in levels.Values && o != levels[key] ==> o.State() == old(o.State())
      ensures LevelStates() == old(LevelStates())[key := levels[key].State()] && Valid()
    {
      assert forall k :: k in levels && k != key ==> levels[k] in levels.Values && levels[k] != levels[key];
    }

    method LevelsBestFirst(side: Side) returns (keys: seq<Key>)
      ensures keys == Spec.LevelsBestFirst(LevelStates(), side)
    {
      var ranks := set k | k in levels && k.side == side :: Rank(side, k.px);
      assert ranks == set k | k in LevelStates() && k.side == side :: Rank(side, k.px);
      keys := Spec.KeysOf(Listing(ranks), side);
    }

    method OnLevels(keys: seq<Key>, trade: Trade) returns (fills: seq<Fill>)
      requires Valid() && Invariant.Distinct(keys) && forall k :: k in keys ==> k in levels
      modifies this, levels.Values
      ensures Valid() && levels.Values <= old(levels.Values)
      ensures (State(), fills) == Spec.OnLevels(old(State()), keys, trade)
    {
      hide Valid, LevelStates, State, Spec.OnLevel, Spec.OnLevels;
      fills := [];
      ghost var whole := Spec.OnLevels(State(), keys, trade);
      assert whole.1 == fills + whole.1 && keys[0..] == keys;
      var i := 0;
      while i < |keys|
        invariant 0 <= i <= |keys| && Valid() && levels.Values <= old(levels.Values)
        invariant forall j :: i <= j < |keys| ==> keys[j] in levels
        invariant Owed(whole, fills, Spec.OnLevels(State(), keys[i..], trade))
      {
        var key := keys[i];
        assert keys[i..][0] == key && keys[i..][1..] == keys[i + 1..];
        TrackedInState(key);
        OnLevelsStep(State(), keys[i..], trade, whole, fills);
        if Spec.TradeReaches(key.side, key.px, trade.px) {
          var filled := PrintOnLevel(key, trade);
          fills := fills + filled;
        }
        i := i + 1;
      }
      OnLevelsStep(State(), keys[i..], trade, whole, fills);
    }

    /** A print consumes queues front first, best price first, and fills us where it reaches. */
    method OnTrade(trade: Trade) returns (fills: seq<Fill>)
      requires Valid()
      modifies this, levels.Values
      ensures Valid() && levels.Values <= old(levels.Values)
      ensures (State(), fills) == Spec.OnTrade(old(State()), trade)
    {
      if trade.coin != coin {
        return [];
      }
      var keys := LevelsBestFirst(Spec.RestingSideHit(trade.side));
      KeysTracked(Spec.RestingSideHit(trade.side));
      fills := OnLevels(keys, trade);
    }

    lemma TrackedInState(key: Key)
      ensures key in State().levels <==> key in levels
    {}

    lemma KeysTracked(side: Side)
      ensures var keys := Spec.LevelsBestFirst(LevelStates(), side);
        Invariant.Distinct(keys) && forall k :: k in keys ==> k in levels
    {
      Invariant.BestFirstLaw(LevelStates(), side);
    }

    // ---------- book updates ----------

    /** Takes cancelled real size out of one level where this sim's bound says it stood. */
    method RemoveReal(level: Level, volume: Size)
      requires bound != Exact && 0.0 < volume <= RealSize(level.queue)
      modifies level`queue
      ensures level.queue == Fifo.RemoveReal(bound, old(level.queue), volume)
    {
      hide Scaled, Survival, RemoveFront, RemoveBack, DropEmptyReal;
      if bound == ProRata {
        level.queue := Scale(level.queue, Survival(RealSize(level.queue), volume));
      } else if bound == Pessimistic {
        RemoveFromBack(level, volume);
      } else {
        RemoveFromFront(level, volume);
      }
      level.queue := DropEmptyReal(level.queue);
    }

    method RemoveFromFront(level: Level, volume: Size)
      modifies level`queue
      ensures level.queue == RemoveFront(old(level.queue), volume)
    {
      hide RemoveFront;
      var remaining: Size := volume;
      ghost var done, left: Queue := [], level.queue;
      var i := 0;
      while i < |level.queue| && remaining > 0.0
        invariant i == |done| && level.queue == done + left
        invariant RemoveFront(old(level.queue), volume) == done + RemoveFront(left, remaining)
        decreases |left|
      {
        var segment := level.queue[i];
        FrontStep(left, remaining);
        if segment.Real? {
          var take := Min(segment.sz, remaining);
          ReplaceNext(done, left, Real(segment.oid, segment.sz - take));
          level.queue := level.queue[i := Real(segment.oid, segment.sz - take)];
          remaining := remaining - take;
        }
        done, left := done + [level.queue[i]], left[1..];
        i := i + 1;
      }
      FrontDone(left, remaining);
    }

    method RemoveFromBack(level: Level, volume: Size)
      modifies level`queue
      ensures level.queue == RemoveBack(old(level.queue), volume)
    {
      hide BackRemains;
      var remaining: Size := volume;
      ghost var left, done: Queue := level.queue, [];
      ghost var whole := RemoveBack(level.queue, volume);
      BackStart(left, volume);
      var i := |level.queue|;
      while i > 0 && remaining > 0.0
        invariant i == |left| && level.queue == left + done
        invariant BackRemains(whole, left, remaining, done)
        decreases i
      {
        i := i - 1;
        var segment := level.queue[i];
        ReplaceLast(left, done, segment);
        BackStep(whole, left, remaining, done);
        if segment.Real? {
          var take := Min(segment.sz, remaining);
          ReplaceLast(left, done, Real(segment.oid, segment.sz - take));
          level.queue := level.queue[i := Real(segment.oid, segment.sz - take)];
          remaining := remaining - take;
        }
        left, done := left[..i], [level.queue[i]] + done;
      }
      BackDone(whole, left, remaining, done);
    }

    /** Brings one level to the visible size. */
    method ReconcileLevel(level: Level, visible: Size)
      requires bound != Exact
      modifies level`queue
      ensures level.queue == Reconcile(bound, old(level.queue), visible)
    {
      hide Fifo.RemoveReal;
      var tracked := RealSize(level.queue);
      if visible > tracked {
        level.queue := level.queue + [Real(None, visible - tracked)];
      } else if visible < tracked {
        RemoveReal(level, tracked - visible);
      }
    }

    method ReconcileL2Levels(book: BookView)
      requires Valid() && bound != Exact
      modifies levels.Values
      ensures LevelStates() == Spec.ReconcileAll(bound, old(LevelStates()), book)
    {
      hide Reconcile, Spec.VisibleIn;
      var todo := levels.Keys;
      while todo != {}
        invariant todo <= levels.Keys
        invariant forall k :: k in levels ==> levels[k].consumedInBlock == old(levels[k].consumedInBlock)
        invariant forall k :: k in levels && k !in todo ==>
          levels[k].queue == Reconcile(bound, old(levels[k].queue), Spec.VisibleIn(book, k))
        invariant forall k :: k in todo ==> levels[k].queue == old(levels[k].queue)
        decreases todo
      {
        ghost var some := SomeOf(todo);
        var key :| key in todo;
        ReconcileLevel(levels[key], Spec.VisibleIn(book, key));
        todo := todo - {key};
      }
    }

    method SettleLevels()
      requires Valid()
      modifies levels.Values
      ensures LevelStates() == Spec.Settled(old(LevelStates()))
    {
      var todo := levels.Keys;
      while todo != {}
        invariant todo <= levels.Keys
        invariant forall k :: k in levels ==> levels[k].queue == old(levels[k].queue)
        invariant forall k :: k in levels && k !in todo ==> levels[k].consumedInBlock == 0.0
        decreases todo
      {
        ghost var some := SomeOf(todo);
        var key :| key in todo;
        levels[key].consumedInBlock := 0.0;
        todo := todo - {key};
      }
    }

    /** Index of the first real segment of an order, or the queue's length. */
    method FindReal(q: Queue, oid: int) returns (at: nat)
      ensures at <= |q| && (at < |q| <==> Spec.HasOid(q, oid))
      ensures at < |q| ==> Spec.RemoveOid(q, oid) == q[..at] + q[at + 1..]
      ensures at < |q| ==> forall sz: Size :: Spec.ResizeOid(q, oid, sz) == q[at := Real(Some(oid), sz)]
    {
      at := 0;
      while at < |q| && q[at] != Real(Some(oid), q[at].sz)
        invariant at <= |q| && forall i :: 0 <= i < at ==> q[i] != Real(Some(oid), q[i].sz)
      {
        at := at + 1;
      }
      if at < |q| {
        FirstRemoved(q, oid, at);
        forall sz: Size
          ensures Spec.ResizeOid(q, oid, sz) == q[at := Real(Some(oid), sz)]
        {
          FirstResized(q, oid, at, sz);
        }
      } else {
        NoOid(q, oid);
      }
    }

    method ApplyDiff(diff: BookDiff)
      requires Valid()
      modifies this`untrackedDiffs, levels.Values
      ensures State() == Spec.ApplyDiff(old(State()), diff)
    {
      if diff.key !in levels {
        return;
      }
      hide Valid, Spec.HasOid, Spec.RemoveOid, Spec.ResizeOid;
      var q := levels[diff.key].queue;
      if diff.kind.New? {
        SetQueue(diff.key, q + [Real(Some(diff.oid), if diff.kind.sz.None? then 0.0 else diff.kind.sz.value)]);
        return;
      }
      var at := FindReal(q, diff.oid);
      if at == |q| {
        untrackedDiffs := untrackedDiffs + 1;
      } else if diff.kind.Remove? || diff.kind.newSz.None? || diff.kind.newSz.value <= 0.0 {
        SetQueue(diff.key, q[..at] + q[at + 1..]);
      } else {
        SetQueue(diff.key, q[at := Real(Some(diff.oid), diff.kind.newSz.value)]);
      }
    }

    method ApplyExactDiffs(batch: BlockDiffBatch)
      requires Valid()
      modifies this`untrackedDiffs, levels.Values
      ensures State() == Spec.ApplyDiffs(old(State()).(levels := Spec.Settled(old(LevelStates()))), batch.diffs)
    {
      SettleLevels();
      hide Valid, LevelStates, State, Spec.ApplyDiff;
      ghost var st := State();
      var i := 0;
      assert batch.diffs[..0] == [];
      while i < |batch.diffs|
        invariant 0 <= i <= |batch.diffs|
        invariant State() == Spec.ApplyDiffs(st, batch.diffs[..i])
      {
        assert batch.diffs[..i + 1][..i] == batch.diffs[..i];
        ApplyDiff(batch.diffs[i]);
        i := i + 1;
      }
      assert batch.diffs[..i] == batch.diffs;
    }

    method CountCrossed(book: BookView)
      modifies this`crossedUnfilled
      ensures crossedUnfilled == old(crossedUnfilled) + |Spec.CrossedOrders(old(State()), book)|
    {
      hide Spec.Crossed, LevelStates;
      ghost var all := Spec.CrossedOrders(State(), book);
      var todo := registry.Keys;
      while todo != {}
        invariant todo <= registry.Keys
        invariant crossedUnfilled == old(crossedUnfilled) + |all - todo|
        decreases todo
      {
        ghost var some := SomeOf(todo);
        var id :| id in todo;
        if Spec.Crossed(book, registry[id]) {
          crossedUnfilled := crossedUnfilled + 1;
          assert all - (todo - {id}) == (all - todo) + {id};
        } else {
          assert all - (todo - {id}) == all - todo;
        }
        todo := todo - {id};
      }
      assert all - todo == all;
    }

    /** Real volume follows the block: by its diffs in EXACT mode, by what the book shows otherwise. */
    method FollowBook(book: BookView, batch: Option<BlockDiffBatch>)
      requires Valid()
      modifies this`untrackedDiffs, levels.Values
      ensures State() ==
        if bound != Exact then old(State()).(levels := Spec.ReconcileAll(bound, old(LevelStates()), book))
        else if batch.Some? then
          Spec.ApplyDiffs(old(State()).(levels := Spec.Settled(old(LevelStates()))), batch.value.diffs)
        else old(State())
    {
      hide Spec.ApplyDiffs, Spec.Settled, Spec.ReconcileAll, Valid, LevelStates;
      if bound == Exact && batch.Some? {
        ApplyExactDiffs(batch.value);
      } else if bound != Exact {
        ReconcileL2Levels(book);
      }
    }

    /** A block boundary: real queue state follows the book under this sim's bound. No fills come of it. */
    method OnBook(book: BookView, batch: Option<BlockDiffBatch>, tMs: int) returns (fills: seq<Fill>)
      requires Valid()
      modifies this, levels.Values
      ensures Valid() && levels == old(levels)
      ensures fills == [] && State() == Spec.OnBook(old(State()), book, batch)
    {
      hide Spec.ApplyDiffs, Spec.Settled, Spec.ReconcileAll, Spec.CrossedOrders, Valid, LevelStates;
      view := Some(book);
      if batch.Some? {
        lastHeight := Some(batch.value.height);
      }
      FollowBook(book, batch);
      CountCrossed(book);
      fills := [];
    }

    // ---------- reads ----------

    /** Real size still ahead of one of our orders; none once it has left. */
    method QueueAhead(orderId: int) returns (r: Option<Size>)
      requires Invariant.Inv(State())
      ensures r == Spec.QueueAhead(State(), orderId)
    {
      if orderId !in registry {
        return None;
      }
      assert Invariant.Registered(State().registry, registry[orderId], orderId);
      assert Invariant.Lists(State().levels, registry[orderId], orderId);
      var level := levels[registry[orderId]];
      var ahead: Size := 0.0;
      var budget: Size := level.consumedInBlock;
      ghost var left := level.queue;
      var i := 0;
      while i < |level.queue|
        invariant 0 <= i <= |level.queue| && left == level.queue[i..] && HasOwn(left, orderId)
        invariant RealAhead(level.queue, level.consumedInBlock, orderId) == ahead + RealAhead(left, budget, orderId)
      {
        var segment := level.queue[i];
        if segment.Own? && segment.id == orderId {
          return Some(Max(0.0, ahead));
        }
        if segment.Real? {
          var take := Min(segment.sz, budget);
          budget := budget - take;
          ahead := ahead + segment.sz - take;
        }
        left := left[1..];
        i := i + 1;
      }
      assert false;
      return None;
    }

    /** One open order as its readers see it. */
    ghost function OpenRow(id: int): OpenOrder
      requires id in registry
      reads this, levels.Values
    {
      OpenOrder(id, registry[id], Spec.OpenSize(State(), id), Spec.QueueAhead(State(), id))
    }

    method ReadOrder(id: int) returns (row: OpenOrder)
      requires Invariant.Inv(State()) && id in registry
      ensures row == OpenRow(id)
    {
      assert Invariant.Registered(State().registry, registry[id], id);
      assert Invariant.Lists(State().levels, registry[id], id);
      var ahead := QueueAhead(id);
      row := OpenOrder(id, registry[id], Remaining(levels[registry[id]].queue, id), ahead);
    }

    ghost predicate OpenRows(orders: seq<OpenOrder>, ids: seq<int>)
      reads this, levels.Values
    {
      |orders| <= |ids| && forall j :: 0 <= j < |orders| ==> ids[j] in registry && orders[j] == OpenRow(ids[j])
    }

    lemma OneMoreRow(orders: seq<OpenOrder>, ids: seq<int>)
      requires |orders| < |ids| && ids[|orders|] in registry && OpenRows(orders, ids)
      ensures OpenRows(orders + [OpenRow(ids[|orders|])], ids)
    {
      hide OpenRow;
    }

    lemma AllRegistered(ids: seq<int>)
      requires ids == Listing(registry.Keys)
      ensures |ids| == |registry| && forall j :: 0 <= j < |ids| ==> ids[j] in registry
    {
      assert forall j :: 0 <= j < |ids| ==> ids[j] in ids;
    }

    /** What the engine and the policy see of our open orders, by ascending order id. */
    method OpenOrders() returns (orders: seq<OpenOrder>)
      requires Invariant.Inv(State())
      ensures |orders| == |registry| && OpenRows(orders, Listing(registry.Keys))
    {
      hide *;
      var ids := Listing(registry.Keys);
      AllRegistered(ids);
      orders := [];
      NoRows(ids);
      var i := 0;
      while i < |ids|
        invariant 0 <= i <= |ids| && |orders| == i && OpenRows(orders, ids)
      {
        var row := ReadOrder(ids[i]);
        OneMoreRow(orders, ids);
        orders := orders + [row];
        i := i + 1;
      }
    }

    lemma NoRows(ids: seq<int>)
      ensures OpenRows([], ids)
    {}
  }

  datatype OpenOrder = OpenOrder(orderId: int, key: Key, sz: Size, queueAhead: Option<Size>)

  lemma FrontDone(left: Queue, remaining: Size)
    ensures left == [] || remaining <= 0.0 ==> RemoveFront(left, remaining) == left
  {
    if remaining <= 0.0 { NothingRemoved(left); }
  }

  lemma BackDone(whole: Queue, left: Queue, remaining: Size, done: Queue)
    requires BackRemains(whole, left, remaining, done) && (left == [] || remaining <= 0.0)
    ensures whole == left + done
  {
    NothingRemoved(left);
  }

  lemma NoParts(st: Spec.SimState, key: Key, trade: Trade)
    ensures Spec.EmitAll(st, key, trade, []) == [] && FilledTotal([]) == 0.0
  {}

  lemma WalkAtDone(exact: bool, left: Queue, budget: Size, skip: Size, ahead: Size)
    ensures left == [] || budget <= 0.0 ==> WalkAt(exact, left, budget, skip, ahead) == Walked(left, 0.0, [])
  {}

  lemma WalkThroughNil(exact: bool, skip: Size, ahead: Size)
    ensures WalkThrough(exact, [], skip, ahead) == Walked([], 0.0, [])
  {}
}
