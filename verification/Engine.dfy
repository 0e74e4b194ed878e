/** The replay engine as an object driving one `QueueSim`, proved to carry out `EngineState`. */
module ReplayEngine {
  import opened Schemas
  import opened Sorting
  import opened Simulator
  import Spec = EngineState
  import Sim = QueueState
  import Inv = QueueInvariant

  class Engine {
    const config: Spec.Config
    const sim: QueueSim
    var pending: seq<Spec.Pending>
    var tradesBuf: seq<Trade>
    var mid: Option<real>
    var lastT: Option<int>
    var cash: real
    var inventory: real
    var feesPaid: real
    var fundingPaid: real
    var fills: seq<Fill>
    var midSeries: seq<(int, real)>
    var inventorySeries: seq<(int, real)>
    var blocks: nat
    var tradesSeen: nat
    var actionsSubmitted: nat
    var staleEvictions: nat

    ghost predicate Valid()
      reads sim, sim.levels.Values
    {
      sim.Valid() && Inv.Inv(sim.State())
    }

    ghost function Ledger(): Spec.Ledger
      reads this`cash, this`inventory, this`feesPaid, this`fundingPaid
    {
      Spec.Ledger(cash, inventory, feesPaid, fundingPaid)
    }

    ghost function State(): Spec.Engine
      reads this, sim, sim.levels.Values
    {
      Spec.Engine(config, sim.State(), pending, tradesBuf, mid, lastT, Ledger(), fills, midSeries, inventorySeries,
                  blocks, tradesSeen, actionsSubmitted, staleEvictions)
    }

    constructor (sim: QueueSim, config: Spec.Config)
      ensures this.sim == sim && State() == Spec.Start(config, sim.State())
    {
      this.config := config;
      this.sim := sim;
      pending := [];
      tradesBuf := [];
      mid := None;
      lastT := None;
      cash := 0.0;
      inventory := 0.0;
      feesPaid := 0.0;
      fundingPaid := 0.0;
      fills := [];
      midSeries := [];
      inventorySeries := [];
      blocks := 0;
      tradesSeen := 0;
      actionsSubmitted := 0;
      staleEvictions := 0;
    }

    // ---------- driving the simulator ----------

    method ApplyAction(action: Spec.Action, t: int)
      requires Valid()
      modifies sim, sim.levels.Values
      ensures Valid() && fresh(sim.levels.Values - old(sim.levels.Values))
      ensures sim.State() == Spec.ApplyAction(old(sim.State()), action)
    {
      hide Inv.Inv, QueueSim.State, QueueSim.Valid, Sim.Place, Sim.Cancel;
      match action {
        case PlaceQuote(key, sz) =>
          Inv.PlaceLaw(sim.State(), key, sz);
          var id := sim.Place(key, sz, t);
        case CancelQuote(orderId) =>
          CancelReady(orderId);
          Inv.CancelLaw(sim.State(), orderId, false);
          var pulled := sim.Cancel(orderId, t, false);
        case UnknownAction =>
      }
    }

    /** The registry only names tracked levels. */
    lemma CancelReady(orderId: int)
      requires Valid()
      ensures orderId in sim.registry ==> sim.registry[orderId] in sim.levels
    {
      if orderId in sim.registry {
        assert Inv.Registered(sim.State().registry, sim.registry[orderId], orderId);
        assert Inv.Lists(sim.State().levels, sim.registry[orderId], orderId);
      }
    }

    /** Hands over the actions whose latency has elapsed, in submission order; keeps the others. */
    method ApplyDue(t: int)
      requires Valid()
      modifies this`pending, sim, sim.levels.Values
      ensures Valid() && fresh(sim.levels.Values - old(sim.levels.Values))
      ensures sim.State() == Spec.ApplyActions(old(sim.State()), Spec.Due(old(pending), t)) &&
        pending == Spec.NotDue(old(pending), t)
    {
      hide Inv.Inv, QueueSim.State, QueueSim.Valid, Spec.ApplyAction, Spec.Due, Spec.NotDue;
      var due := Spec.Due(pending, t);
      pending := Spec.NotDue(pending, t);
      var i := 0;
      assert due[..0] == [];
      while i < |due|
        modifies sim, sim.levels.Values
        invariant 0 <= i <= |due| && Valid() && fresh(sim.levels.Values - old(sim.levels.Values))
        invariant sim.State() == Spec.ApplyActions(old(sim.State()), due[..i])
      {
        assert due[..i + 1][..i] == due[..i];
        ApplyAction(due[i].action, t);
        i := i + 1;
      }
      assert due[..i] == due;
    }

    /** Plays the block's trades in arrival order. */
    method PlayTrades() returns (filled: seq<Fill>)
      requires Valid()
      modifies this`tradesBuf, this`tradesSeen, sim, sim.levels.Values
      ensures Valid() && fresh(sim.levels.Values - old(sim.levels.Values))
      ensures (sim.State(), filled) == Spec.PlayTrades(old(sim.State()), old(tradesBuf))
      ensures tradesBuf == [] && tradesSeen == old(tradesSeen) + |old(tradesBuf)|
    {
      hide Inv.Inv, QueueSim.State, QueueSim.Valid, Sim.OnTrade;
      filled := [];
      var i := 0;
      assert tradesBuf[..0] == [];
      while i < |tradesBuf|
        modifies sim, sim.levels.Values
        invariant 0 <= i <= |tradesBuf| && Valid() && fresh(sim.levels.Values - old(sim.levels.Values))
        invariant (sim.State(), filled) == Spec.PlayTrades(old(sim.State()), tradesBuf[..i])
      {
        assert tradesBuf[..i + 1][..i] == tradesBuf[..i];
        Inv.OnTradeLaw(sim.State(), tradesBuf[i]);
        var more := sim.OnTrade(tradesBuf[i]);
        filled := filled + more;
        i := i + 1;
      }
      assert tradesBuf[..i] == tradesBuf;
      tradesSeen := tradesSeen + |tradesBuf|;
      tradesBuf := [];
    }

    method EvictOne(orderId: int, t: int)
      requires Valid()
      modifies this`staleEvictions, sim, sim.levels.Values
      ensures Valid() && fresh(sim.levels.Values - old(sim.levels.Values))
      ensures sim.State() == Sim.Cancel(old(sim.State()), orderId, true) && staleEvictions == old(staleEvictions) + 1
    {
      hide Inv.Inv, QueueSim.State, QueueSim.Valid, Sim.Cancel;
      CancelReady(orderId);
      Inv.CancelLaw(sim.State(), orderId, true);
      var pulled := sim.Cancel(orderId, t, true);
      staleEvictions := staleEvictions + 1;
    }

    /** Pulls every open order, oldest id first. */
    method EvictAll(t: int)
      requires Valid()
      modifies this`staleEvictions, sim, sim.levels.Values
      ensures Valid() && fresh(sim.levels.Values - old(sim.levels.Values))
      ensures sim.State() == Spec.Evicted(old(sim.State()), true)
      ensures staleEvictions == old(staleEvictions) + |old(sim.State()).registry|
    {
      hide *;
      SimInvariant();
      var open := sim.OpenOrders();
      OpenIds(open);
      ghost var ids, before := Listing(sim.registry.Keys), sim.State();
      var i := 0;
      assert ids[..0] == [];
      EvictNone(before, ids);
      while i < |open|
        invariant 0 <= i <= |open| && SameIds(open, ids) && Valid() && fresh(sim.levels.Values - old(sim.levels.Values))
        invariant sim.State() == Spec.EvictAll(before, ids[..i])
        invariant staleEvictions == old(staleEvictions) + i
      {
        IdAt(open, ids, i);
        EvictStep(before, ids, i);
        EvictOne(open[i].orderId, t);
        i := i + 1;
      }
      SameLength(open, ids);
      assert ids[..i] == ids;
      EvictNone(before, ids);
    }

    lemma SimInvariant()
      requires Valid()
      ensures Inv.Inv(sim.State())
    {}

    ghost predicate SameIds(open: seq<OpenOrder>, ids: seq<int>) {
      |open| == |ids| && forall i :: 0 <= i < |open| ==> open[i].orderId == ids[i]
    }

    lemma IdAt(open: seq<OpenOrder>, ids: seq<int>, i: nat)
      requires SameIds(open, ids) && i < |open|
      ensures i < |ids| && open[i].orderId == ids[i]
    {}

    lemma SameLength(open: seq<OpenOrder>, ids: seq<int>)
      requires SameIds(open, ids)
      ensures |open| == |ids|
    {}

    lemma OpenIds(open: seq<OpenOrder>)
      requires |open| == |sim.registry| && sim.OpenRows(open, Listing(sim.registry.Keys))
      ensures SameIds(open, Listing(sim.registry.Keys))
      ensures sim.State().registry == sim.registry && |open| == |sim.registry|
    {}

    // ---------- the ledger ----------

    method ApplyFill(fill: Fill)
      modifies this`cash, this`inventory, this`feesPaid
      ensures Ledger() == Spec.ApplyFill(old(Ledger()), fill, config.makerFeeBps)
    {
      var notional := fill.px as real * fill.sz;
      if fill.side == Bid {
        inventory := inventory + fill.sz;
        cash := cash - notional;
      } else {
        inventory := inventory - fill.sz;
        cash := cash + notional;
      }
      var fee := notional * config.makerFeeBps / 10000.0;
      cash := cash - fee;
      feesPaid := feesPaid + fee;
    }

    method BookFills(filled: seq<Fill>)
      modifies this`cash, this`inventory, this`feesPaid, this`fills
      ensures Ledger() == Spec.ApplyFills(old(Ledger()), filled, config.makerFeeBps) && fills == old(fills) + filled
    {
      hide Spec.ApplyFill;
      var i := 0;
      assert filled[..0] == [];
      while i < |filled|
        modifies this`cash, this`inventory, this`feesPaid
        invariant 0 <= i <= |filled| && Ledger() == Spec.ApplyFills(old(Ledger()), filled[..i], config.makerFeeBps)
      {
        assert filled[..i + 1][..i] == filled[..i];
        ApplyFill(filled[i]);
        i := i + 1;
      }
      assert filled[..i] == filled;
      fills := fills + filled;
    }

    /** Funding accrues on marked inventory over the gap between blocks. */
    method AccrueFunding(t: int)
      modifies this`cash, this`fundingPaid
      ensures State() == Funded(old(State()), t)
    {
      if lastT.Some? && mid.Some? && config.fundingRateHourly != 0.0 && inventory != 0.0 {
        var funding := inventory * mid.value * config.fundingRateHourly * (t - lastT.value) as real / 3600000.0;
        cash := cash - funding;
        fundingPaid := fundingPaid + funding;
      }
    }

    // ---------- events ----------

    /** The simulator's part of a block: due actions, trades, book, eviction. */
    method SimBlock(t: int, view: BookView, batch: Option<BlockDiffBatch>, stale: bool) returns (filled: seq<Fill>)
      requires Valid()
      modifies this`pending, this`tradesBuf, this`tradesSeen, this`staleEvictions, sim, sim.levels.Values
      ensures Valid() && fresh(sim.levels.Values - old(sim.levels.Values))
      ensures var (s, f, evicted) := Spec.SimBlock(old(State()), t, view, batch, stale);
        sim.State() == s && filled == f && staleEvictions == old(staleEvictions) + evicted
      ensures pending == Spec.NotDue(old(pending), t) && tradesBuf == [] &&
        tradesSeen == old(tradesSeen) + |old(tradesBuf)|
    {
      hide Inv.Inv, QueueSim.State, QueueSim.Valid, Sim.OnBook, Spec.ApplyActions, Spec.PlayTrades, Spec.Due,
        Spec.NotDue, Ledger;
      ApplyDue(t);
      filled := PlayTrades();
      Inv.OnBookLaw(sim.State(), view, batch);
      var none := sim.OnBook(view, batch, t);
      if stale {
        EvictAll(t);
      }
    }

    /** After the fills: the mids, the inventory mark, and the policy's answer on its way. */
    method CloseBlock(t: int, view: BookView, answer: seq<Spec.Action>)
      modifies this`mid, this`midSeries, this`inventorySeries, this`pending
      modifies this`blocks, this`actionsSubmitted, this`lastT
      ensures mid == Spec.NextMid(view, old(mid)) && lastT == Some(t)
      ensures midSeries == if mid.Some? then old(midSeries) + [(t, mid.value)] else old(midSeries)
      ensures inventorySeries == old(inventorySeries) + [(t, Ledger().inventory)] && blocks == old(blocks) + 1
      ensures pending == old(pending) + Spec.Submit(answer, t as real + config.submitDelayMs, old(blocks))
      ensures actionsSubmitted == old(actionsSubmitted) + |answer|
    {
      hide Spec.Submit;
      var seen := view.Mid();
      mid := if seen.Some? && seen.value != 0.0 then seen else mid;
      if mid.Some? {
        midSeries := midSeries + [(t, mid.value)];
      }
      inventorySeries := inventorySeries + [(t, inventory)];
      pending := pending + Spec.Submit(answer, t as real + config.submitDelayMs, blocks);
      blocks := blocks + 1;
      actionsSubmitted := actionsSubmitted + |answer|;
      lastT := Some(t);
    }

    /** The simulator's block and its fills on the ledger. */
    method FillBlock(t: int, view: BookView, batch: Option<BlockDiffBatch>, stale: bool)
      requires Valid()
      modifies this, sim, sim.levels.Values
      ensures Valid() && fresh(sim.levels.Values - old(sim.levels.Values))
      ensures State() == Played(old(State()), t, view, batch, stale)
    {
      hide Valid, Ledger, QueueSim.State, Spec.SimBlock, Spec.ApplyFills, Spec.NotDue;
      var filled := SimBlock(t, view, batch, stale);
      BookFills(filled);
    }

    method OnBook(t: int, view: BookView, batch: Option<BlockDiffBatch>, stale: bool, answer: seq<Spec.Action>)
      requires Valid()
      modifies this, sim, sim.levels.Values
      ensures Valid() && fresh(sim.levels.Values - old(sim.levels.Values))
      ensures State() == Spec.OnBookSeen(old(State()), t, view, batch, stale, answer)
    {
      hide Valid, Ledger, Spec.OnBookSeen, Spec.Submit, Spec.NextMid, QueueSim.State, Funded, Played, Closed;
      BlockInPhases(old(State()), t, view, batch, stale, answer);
      AccrueFunding(t);
      FillBlock(t, view, batch, stale);
      ghost var e := State();
      CloseBlock(t, view, answer);
      ClosedIs(e, State(), t, view, answer);
    }

    method OnEvent(ev: Spec.Event)
      requires Valid()
      modifies this, sim, sim.levels.Values
      ensures Valid() && fresh(sim.levels.Values - old(sim.levels.Values))
      ensures State() == Spec.Step(old(State()), ev)
    {
      hide Inv.Inv, QueueSim.State, QueueSim.Valid, Spec.OnBookSeen;
      match ev {
        case TradeSeen(trade) => tradesBuf := tradesBuf + [trade];
        case BookSeen(t, view, batch, stale, answer) => OnBook(t, view, batch, stale, answer);
        case OtherEvent =>
      }
    }

    /** One pass over a stream of events. */
    method Run(events: seq<Spec.Event>)
      requires Valid()
      modifies this, sim, sim.levels.Values
      ensures Valid() && fresh(sim.levels.Values - old(sim.levels.Values))
      ensures State() == Spec.Run(old(State()), events)
    {
      hide Inv.Inv, QueueSim.State, QueueSim.Valid, Spec.Step, State, Valid;
      var i := 0;
      assert events[..0] == [];
      while i < |events|
        invariant 0 <= i <= |events| && Valid() && fresh(sim.levels.Values - old(sim.levels.Values))
        invariant State() == Spec.Run(old(State()), events[..i])
      {
        assert events[..i + 1][..i] == events[..i];
        OnEvent(events[i]);
        i := i + 1;
      }
      assert events[..i] == events;
    }
  }

  // ---------- a block in three phases ----------

  function Funded(e: Spec.Engine, t: int): Spec.Engine {
    var funding := Spec.Funding(e, t);
    e.(ledger := e.ledger.(cash := e.ledger.cash - funding, fundingPaid := e.ledger.fundingPaid + funding))
  }

  function Played(
      e: Spec.Engine, t: int, view: BookView, batch: Option<BlockDiffBatch>, stale: bool): Spec.Engine
  {
    var (s, filled, evicted) := Spec.SimBlock(e, t, view, batch, stale);
    e.(sim := s, pending := Spec.NotDue(e.pending, t), tradesBuf := [], tradesSeen := e.tradesSeen + |e.tradesBuf|,
       staleEvictions := e.staleEvictions + evicted, fills := e.fills + filled,
       ledger := Spec.ApplyFills(e.ledger, filled, e.config.makerFeeBps))
  }

  function Closed(e: Spec.Engine, t: int, view: BookView, answer: seq<Spec.Action>): Spec.Engine {
    var mid := Spec.NextMid(view, e.mid);
    e.(mid := mid, lastT := Some(t),
       midSeries := if mid.Some? then e.midSeries + [(t, mid.value)] else e.midSeries,
       inventorySeries := e.inventorySeries + [(t, e.ledger.inventory)],
       pending := e.pending + Spec.Submit(answer, t as real + e.config.submitDelayMs, e.blocks),
       blocks := e.blocks + 1, actionsSubmitted := e.actionsSubmitted + |answer|)
  }

  lemma BlockInPhases(
      e: Spec.Engine, t: int, view: BookView, batch: Option<BlockDiffBatch>, stale: bool, answer: seq<Spec.Action>)
    ensures Spec.OnBookSeen(e, t, view, batch, stale, answer) ==
            Closed(Played(Funded(e, t), t, view, batch, stale), t, view, answer)
  {
    hide Spec.SimBlock, Spec.NotDue, Spec.Submit, Spec.ApplyFills, Spec.Funding, Spec.NextMid;
    SameBlock(e, Funded(e, t), t, view, batch, stale);
  }

  lemma ClosedIs(e: Spec.Engine, e': Spec.Engine, t: int, view: BookView, answer: seq<Spec.Action>)
    requires e'.config == e.config && e'.sim == e.sim && e'.ledger == e.ledger && e'.fills == e.fills
    requires e'.tradesBuf == e.tradesBuf && e'.tradesSeen == e.tradesSeen && e'.staleEvictions == e.staleEvictions
    requires e'.mid == Spec.NextMid(view, e.mid) && e'.lastT == Some(t)
    requires e'.midSeries == if e'.mid.Some? then e.midSeries + [(t, e'.mid.value)] else e.midSeries
    requires e'.inventorySeries == e.inventorySeries + [(t, e.ledger.inventory)] && e'.blocks == e.blocks + 1
    requires e'.pending == e.pending + Spec.Submit(answer, t as real + e.config.submitDelayMs, e.blocks)
    requires e'.actionsSubmitted == e.actionsSubmitted + |answer|
    ensures e' == Closed(e, t, view, answer)
  {
    hide Spec.Submit, Spec.NextMid;
  }

  /** The simulator's part of a block does not look at the ledger. */
  lemma SameBlock(
      e: Spec.Engine, e': Spec.Engine, t: int, view: BookView, batch: Option<BlockDiffBatch>, stale: bool)
    requires e'.sim == e.sim && e'.pending == e.pending && e'.tradesBuf == e.tradesBuf
    ensures Spec.SimBlock(e', t, view, batch, stale) == Spec.SimBlock(e, t, view, batch, stale)
  {
    hide Spec.PlayTrades, Spec.ApplyActions, Spec.Due, Spec.Evicted, Sim.OnBook;
  }

  lemma EvictNone(s: Sim.SimState, ids: seq<int>)
    ensures Spec.EvictAll(s, []) == s
    ensures ids == Listing(s.registry.Keys) ==> Spec.Evicted(s, true) == Spec.EvictAll(s, ids)
  {}

  lemma EvictStep(s: Sim.SimState, ids: seq<int>, i: nat)
    requires i < |ids|
    ensures Spec.EvictAll(s, ids[..i + 1]) == Sim.Cancel(Spec.EvictAll(s, ids[..i]), ids[i], true)
  {
    assert ids[..i + 1][..i] == ids[..i];
  }
}
