/**
 * An engine pass as one simulator script: the due actions, prints, book and evictions of each block in turn. What is
 * proved of scripts is thereby proved of passes.
 */
module EngineScript {
  import opened Schemas
  import opened QueueState
  import opened QueueInvariant
  import opened Bracket
  import opened Floor
  import opened FillReports
  import Sorting
  import E = EngineState

  // ---------- the script of a pass ----------

  function Act(a: E.Action): seq<Event> {
    match a
    case PlaceQuote(key, sz) => [PlaceOrder(key, sz)]
    case CancelQuote(id) => [CancelOrder(id, false)]
    case UnknownAction => []
  }

  function Acts(due: seq<E.Pending>): seq<Event> {
    if due == [] then [] else Acts(due[..|due| - 1]) + Act(due[|due| - 1].action)
  }

  function Prints(trades: seq<Trade>): seq<Event> {
    if trades == [] then [] else Prints(trades[..|trades| - 1]) + [TradePrint(trades[|trades| - 1])]
  }

  function Evictions(ids: seq<int>): seq<Event> {
    if ids == [] then [] else Evictions(ids[..|ids| - 1]) + [CancelOrder(ids[|ids| - 1], true)]
  }

  /** A block up to its book. */
  function Opening(e: E.Engine, t: int, view: BookView, batch: Option<BlockDiffBatch>): seq<Event> {
    Acts(E.Due(e.pending, t)) + Prints(e.tradesBuf) + [BookUpdate(view, batch)]
  }

  /** What a stale block evicts: every order open after its book, oldest first. */
  function EvictedIds(e: E.Engine, t: int, view: BookView, batch: Option<BlockDiffBatch>): seq<int> {
    var traded := E.PlayTrades(E.ApplyActions(e.sim, E.Due(e.pending, t)), e.tradesBuf).0;
    Sorting.Listing(OnBook(traded, view, batch).registry.Keys)
  }

  function BlockScript(e: E.Engine, ev: E.Event): seq<Event> {
    if !ev.BookSeen? then []
    else Opening(e, ev.tMs, ev.view, ev.batch) +
         if ev.stale then Evictions(EvictedIds(e, ev.tMs, ev.view, ev.batch)) else []
  }

  function Script(config: E.Config, sim: SimState, evs: seq<E.Event>): seq<Event> {
    if evs == [] then [] else
      Script(config, sim, evs[..|evs| - 1]) +
      BlockScript(E.Run(E.Start(config, sim), evs[..|evs| - 1]), evs[|evs| - 1])
  }

  // ---------- it plays what the engine plays ----------

  function Both(a: (SimState, seq<Fill>), b: (SimState, seq<Fill>)): (SimState, seq<Fill>) {
    (b.0, a.1 + b.1)
  }

  lemma {:induction false} RunAppend(st: SimState, a: seq<Event>, b: seq<Event>)
    ensures Run(st, a + b) == Both(Run(st, a), Run(Run(st, a).0, b))
  {
    hide Step;
    if b == [] {
      assert a + b == a && Run(st, a).1 + [] == Run(st, a).1;
    } else {
      var n := |b| - 1;
      assert (a + b)[..|a + b| - 1] == a + b[..n] && (a + b)[|a + b| - 1] == b[n];
      RunAppend(st, a, b[..n]);
      var fa := Run(st, a).1;
      var (st1, fb) := Run(Run(st, a).0, b[..n]);
      var last := Step(st1, b[n]).1;
      assert (fa + fb) + last == fa + (fb + last);
    }
  }

  lemma RunOne(st: SimState, e: Event)
    ensures Run(st, [e]) == Step(st, e)
  {
    hide Step;
    assert [e][..0] == [] && Run(st, []) == (st, []);
    assert [] + Step(st, e).1 == Step(st, e).1;
  }

  lemma ActRun(st: SimState, a: E.Action)
    ensures Run(st, Act(a)) == (E.ApplyAction(st, a), [])
  {
    if !a.UnknownAction? { RunOne(st, Act(a)[0]); }
  }

  lemma {:induction false} ActsRun(st: SimState, due: seq<E.Pending>)
    ensures Run(st, Acts(due)) == (E.ApplyActions(st, due), [])
  {
    hide E.ApplyAction, Act;
    if due != [] {
      var n := |due| - 1;
      ActsRun(st, due[..n]);
      RunAppend(st, Acts(due[..n]), Act(due[n].action));
      ActRun(E.ApplyActions(st, due[..n]), due[n].action);
    }
  }

  lemma {:induction false} PrintsRun(st: SimState, trades: seq<Trade>)
    ensures Run(st, Prints(trades)) == E.PlayTrades(st, trades)
  {
    hide OnTrade;
    if trades != [] {
      var n := |trades| - 1;
      PrintsRun(st, trades[..n]);
      RunAppend(st, Prints(trades[..n]), [TradePrint(trades[n])]);
      RunOne(E.PlayTrades(st, trades[..n]).0, TradePrint(trades[n]));
    }
  }

  lemma {:induction false} EvictionsRun(st: SimState, ids: seq<int>)
    ensures Run(st, Evictions(ids)) == (E.EvictAll(st, ids), [])
  {
    hide Cancel;
    if ids != [] {
      var n := |ids| - 1;
      EvictionsRun(st, ids[..n]);
      RunAppend(st, Evictions(ids[..n]), [CancelOrder(ids[n], true)]);
      RunOne(E.EvictAll(st, ids[..n]), CancelOrder(ids[n], true));
    }
  }

  lemma OpeningRun(e: E.Engine, t: int, view: BookView, batch: Option<BlockDiffBatch>)
    ensures var (traded, fills) := E.PlayTrades(E.ApplyActions(e.sim, E.Due(e.pending, t)), e.tradesBuf);
      Run(e.sim, Opening(e, t, view, batch)) == (OnBook(traded, view, batch), fills)
  {
    hide Run, Acts, Prints, E.PlayTrades, E.ApplyActions, OnBook, E.Due;
    var due, book := E.Due(e.pending, t), BookUpdate(view, batch);
    ActsRun(e.sim, due);
    var acted := E.ApplyActions(e.sim, due);
    PrintsRun(acted, e.tradesBuf);
    RunAppend(e.sim, Acts(due), Prints(e.tradesBuf));
    RunAppend(e.sim, Acts(due) + Prints(e.tradesBuf), [book]);
    var (traded, fills) := E.PlayTrades(acted, e.tradesBuf);
    RunOne(traded, book);
    assert [] + fills + [] == fills && [] + fills == fills && fills + [] == fills;
  }

  lemma BlockRun(e: E.Engine, ev: E.Event)
    requires ev.BookSeen?
    ensures var (sim, fills, _) := E.SimBlock(e, ev.tMs, ev.view, ev.batch, ev.stale);
      Run(e.sim, BlockScript(e, ev)) == (sim, fills)
  {
    hide Run, Opening, Evictions, E.PlayTrades, E.ApplyActions, OnBook, E.Due, E.EvictAll;
    OpeningRun(e, ev.tMs, ev.view, ev.batch);
    var opening, ids := Opening(e, ev.tMs, ev.view, ev.batch), EvictedIds(e, ev.tMs, ev.view, ev.batch);
    var booked := Run(e.sim, opening);
    if ev.stale {
      RunAppend(e.sim, opening, Evictions(ids));
      EvictionsRun(booked.0, ids);
      assert booked.1 + [] == booked.1;
    } else {
      assert opening + [] == opening;
    }
  }

  /** The simulator and the fills of an engine pass are those of its script. */
  lemma {:induction false} PassIsItsScript(config: E.Config, sim: SimState, evs: seq<E.Event>)
    ensures var e := E.Run(E.Start(config, sim), evs);
      Run(sim, Script(config, sim, evs)) == (e.sim, e.fills)
  {
    hide Run, BlockScript, E.SimBlock, E.ApplyFills, E.NotDue, E.Submit, E.Funding, E.NextMid;
    if evs == [] {
      RunNothing(sim);
    } else {
      var n := |evs| - 1;
      var e := E.Run(E.Start(config, sim), evs[..n]);
      PassIsItsScript(config, sim, evs[..n]);
      RunAppend(sim, Script(config, sim, evs[..n]), BlockScript(e, evs[n]));
      if evs[n].BookSeen? {
        BlockRun(e, evs[n]);
      } else {
        NoBlock(e, evs[n]);
      }
    }
  }

  lemma RunNothing(st: SimState)
    ensures Run(st, []) == (st, [])
  {}

  lemma NoBlock(e: E.Engine, ev: E.Event)
    requires !ev.BookSeen?
    ensures BlockScript(e, ev) == [] && Run(e.sim, []) == (e.sim, []) && e.fills + [] == e.fills
    ensures E.Step(e, ev).sim == e.sim && E.Step(e, ev).fills == e.fills
  {}

  // ---------- a pass keeps the order the simulator asks for ----------

  lemma {:induction false} NoPrintsAppended(a: seq<Event>, b: seq<Event>)
    requires PlacesAfterBooks(a) && BookIsLatest(a) && forall e :: e in b ==> !e.TradePrint?
    ensures PlacesAfterBooks(a + b) && BookIsLatest(a + b)
  {
    if b == [] {
      assert a + b == a;
    } else {
      var n := |b| - 1;
      assert (a + b)[..|a + b| - 1] == a + b[..n] && b[n] in b;
      NoPrintsAppended(a, b[..n]);
    }
  }

  lemma {:induction false} PrintsAppended(a: seq<Event>, trades: seq<Trade>)
    requires PlacesAfterBooks(a)
    ensures PlacesAfterBooks(a + Prints(trades))
  {
    if trades == [] {
      assert a + Prints(trades) == a;
    } else {
      var n := |trades| - 1;
      PrintsAppended(a, trades[..n]);
      var longer := a + Prints(trades);
      assert longer[..|longer| - 1] == a + Prints(trades[..n]);
    }
  }

  lemma BookAppended(a: seq<Event>, view: BookView, batch: Option<BlockDiffBatch>)
    requires PlacesAfterBooks(a)
    ensures PlacesAfterBooks(a + [BookUpdate(view, batch)]) && BookIsLatest(a + [BookUpdate(view, batch)])
  {
    assert (a + [BookUpdate(view, batch)])[..|a|] == a;
  }

  lemma {:induction false} ActsPrintNothing(due: seq<E.Pending>)
    ensures forall e :: e in Acts(due) ==> !e.TradePrint?
  {
    if due != [] { ActsPrintNothing(due[..|due| - 1]); }
  }

  lemma {:induction false} EvictionsCancel(ids: seq<int>)
    ensures forall e :: e in Evictions(ids) ==> e.CancelOrder?
  {
    if ids != [] { EvictionsCancel(ids[..|ids| - 1]); }
  }

  lemma BlockParts(a: seq<Event>, acts: seq<Event>, prints: seq<Event>, book: Event, tail: seq<Event>)
    ensures a + (acts + prints + [book] + tail) == a + acts + prints + [book] + tail
  {}

  lemma BlockAppended(a: seq<Event>, e: E.Engine, ev: E.Event)
    requires PlacesAfterBooks(a) && BookIsLatest(a)
    ensures PlacesAfterBooks(a + BlockScript(e, ev)) && BookIsLatest(a + BlockScript(e, ev))
  {
    hide Acts, Prints, Evictions, EvictedIds, PlacesAfterBooks, BookIsLatest;
    if ev.BookSeen? {
      var due, book := E.Due(e.pending, ev.tMs), BookUpdate(ev.view, ev.batch);
      var ids := EvictedIds(e, ev.tMs, ev.view, ev.batch);
      var tail := if ev.stale then Evictions(ids) else [];
      BlockParts(a, Acts(due), Prints(e.tradesBuf), book, tail);
      ActsPrintNothing(due);
      NoPrintsAppended(a, Acts(due));
      PrintsAppended(a + Acts(due), e.tradesBuf);
      BookAppended(a + Acts(due) + Prints(e.tradesBuf), ev.view, ev.batch);
      EvictionsCancel(ids);
      NoPrintsAppended(a + Acts(due) + Prints(e.tradesBuf) + [book], tail);
    } else {
      assert a + [] == a;
    }
  }

  /** The engine places orders only after a block's book and before the next block's prints. */
  lemma {:induction false} PassPlacesAfterBooks(config: E.Config, sim: SimState, evs: seq<E.Event>)
    ensures PlacesAfterBooks(Script(config, sim, evs)) && BookIsLatest(Script(config, sim, evs))
  {
    hide BlockScript, E.Run, E.Start;
    if evs != [] {
      var n := |evs| - 1;
      PassPlacesAfterBooks(config, sim, evs[..n]);
      BlockAppended(Script(config, sim, evs[..n]), E.Run(E.Start(config, sim), evs[..n]), evs[n]);
    }
  }

  // ---------- what carries over ----------

  /**
   * The account of every order of a pass: while open, its fills and its remainder make up the size it was placed
   * with; it leaves only filled in full or cancelled.
   */
  lemma PassAccount(config: E.Config, coin: Coin, bound: Bound, evs: seq<E.Event>, id: int)
    ensures var e := E.Run(E.Start(config, Init(coin, bound)), evs);
      var script := Script(config, Init(coin, bound), evs);
      var orders, filled := Placements(script), FilledSize(e.fills, id);
      if 1 <= id <= |orders| then
        && (id in e.sim.registry ==> filled + OpenSize(e.sim, id) == orders[id - 1].1)
        && (id !in e.sim.registry && !EverCancels(script, id) ==> filled == orders[id - 1].1)
        && filled <= orders[id - 1].1
      else id !in e.sim.registry && filled == 0.0
  {
    hide *;
    PassIsItsScript(config, Init(coin, bound), evs);
    OrderAccount(coin, bound, Script(config, Init(coin, bound), evs), id);
  }

  ghost predicate AllReported(st: SimState, es: seq<Event>, fills: seq<Fill>) {
    forall i :: 0 <= i < |fills| ==> Reported(st, es, fills[i])
  }

  /** Some print of the script made this fill, which reports the queue of the moment before. */
  ghost predicate Reported(st: SimState, es: seq<Event>, f: Fill) {
    exists n :: 0 <= n < |es| && ReportedAt(st, es, n, f)
  }

  ghost predicate ReportedAt(st: SimState, es: seq<Event>, n: nat, f: Fill)
    requires n < |es|
  {
    es[n].TradePrint? && Reports(Run(st, es[..n]).0, f, es[n].trade)
  }

  lemma ReportedLonger(st: SimState, es: seq<Event>, f: Fill)
    requires es != [] && Reported(st, es[..|es| - 1], f)
    ensures Reported(st, es, f)
  {
    var m := |es| - 1;
    var n :| 0 <= n < m && ReportedAt(st, es[..m], n, f);
    assert es[..m][..n] == es[..n];
    assert ReportedAt(st, es, n, f);
  }

  lemma LastFillsReport(coin: Coin, bound: Bound, es: seq<Event>)
    requires es != []
    ensures AllReported(Init(coin, bound), es,
                        Step(Run(Init(coin, bound), es[..|es| - 1]).0, es[|es| - 1]).1)
  {
    hide Reports, Inv, Step, Run, OnTrade;
    var n := |es| - 1;
    var st1 := Run(Init(coin, bound), es[..n]).0;
    RunInvariant(coin, bound, es[..n]);
    OnlyPrintsFill(st1, es[n]);
    var fills := Step(st1, es[n]).1;
    if es[n].TradePrint? { FillsReportTheQueue(st1, es[n].trade); }
    forall i | 0 <= i < |fills| ensures Reported(Init(coin, bound), es, fills[i]) {
      assert ReportedAt(Init(coin, bound), es, n, fills[i]);
    }
  }

  lemma RunLast(st: SimState, es: seq<Event>)
    requires es != []
    ensures var (st1, fills1) := Run(st, es[..|es| - 1]);
      Run(st, es).1 == fills1 + Step(st1, es[|es| - 1]).1
  {
    hide Step;
  }

  lemma {:induction false} RunFillsReport(coin: Coin, bound: Bound, es: seq<Event>)
    ensures AllReported(Init(coin, bound), es, Run(Init(coin, bound), es).1)
  {
    hide Run, Reported, Step;
    var st := Init(coin, bound);
    if es == [] {
      RunNothing(st);
    } else {
      var n := |es| - 1;
      var fills := Run(st, es[..n]).1;
      RunFillsReport(coin, bound, es[..n]);
      LastFillsReport(coin, bound, es);
      RunLast(st, es);
      forall i | 0 <= i < |fills| ensures Reported(st, es, fills[i]) { ReportedLonger(st, es, fills[i]); }
    }
  }

  lemma OnlyPrintsFill(st: SimState, e: Event)
    ensures !e.TradePrint? ==> Step(st, e).1 == []
    ensures e.TradePrint? ==> Step(st, e).1 == OnTrade(st, e.trade).1
  {}

  /** Every fill of a pass carries the queue-ahead its order would have reported the moment before the print. */
  lemma PassFillsReport(config: E.Config, coin: Coin, bound: Bound, evs: seq<E.Event>)
    ensures var e := E.Run(E.Start(config, Init(coin, bound)), evs);
      AllReported(Init(coin, bound), Script(config, Init(coin, bound), evs), e.fills)
  {
    hide *;
    PassIsItsScript(config, Init(coin, bound), evs);
    RunFillsReport(coin, bound, Script(config, Init(coin, bound), evs));
  }

  // ---------- one tape under two assumptions ----------

  predicate NoStale(evs: seq<E.Event>) {
    forall ev :: ev in evs && ev.BookSeen? ==> !ev.stale
  }

  lemma {:induction false} SameQueues(config: E.Config, x: SimState, p: SimState, evs: seq<E.Event>)
    ensures var ex, ep := E.Run(E.Start(config, x), evs), E.Run(E.Start(config, p), evs);
      && ex.pending == ep.pending && ex.tradesBuf == ep.tradesBuf && ex.blocks == ep.blocks
      && ex.config == ep.config == config
  {
    hide E.SimBlock, E.ApplyFills, E.NotDue, E.Submit, E.Funding, E.NextMid;
    if evs != [] { SameQueues(config, x, p, evs[..|evs| - 1]); }
  }

  lemma {:induction false} SameScript(config: E.Config, x: SimState, p: SimState, evs: seq<E.Event>)
    requires NoStale(evs)
    ensures Script(config, x, evs) == Script(config, p, evs)
  {
    hide Opening, E.Run, EvictedIds;
    if evs != [] {
      var n := |evs| - 1;
      assert evs[n] in evs;
      SameScript(config, x, p, evs[..n]);
      SameQueues(config, x, p, evs[..n]);
      SameBlock(E.Run(E.Start(config, x), evs[..n]), E.Run(E.Start(config, p), evs[..n]), evs[n]);
    }
  }

  lemma SameBlock(ex: E.Engine, ep: E.Engine, ev: E.Event)
    requires ex.pending == ep.pending && ex.tradesBuf == ep.tradesBuf && (ev.BookSeen? ==> !ev.stale)
    ensures BlockScript(ex, ev) == BlockScript(ep, ev)
  {}

  /**
   * The bracket on passes: over one tape without stale blocks, and one series of policy answers, no order is filled
   * less by the pass meant to fill more, as long as the script's cancels and books are safe.
   */
  lemma PassesAreOrdered(config: E.Config, coin: Coin, bx: Bound, bp: Bound, evs: seq<E.Event>, id: int)
    requires Bracketed(bx, bp) && NoStale(evs)
    requires SafeSteps(coin, bx, bp, Script(config, Init(coin, bx), evs))
    ensures FilledSize(E.Run(E.Start(config, Init(coin, bp)), evs).fills, id) <=
            FilledSize(E.Run(E.Start(config, Init(coin, bx)), evs).fills, id)
  {
    hide SafeSteps, Script, E.Run, Run, PlacesAfterBooks, FilledSize, NoMoreLeft;
    var x, p := Init(coin, bx), Init(coin, bp);
    SameScript(config, x, p, evs);
    PassIsItsScript(config, x, evs);
    PassIsItsScript(config, p, evs);
    PassPlacesAfterBooks(config, x, evs);
    var script := Script(config, x, evs);
    SafeIsOrdered(coin, bx, bp, script);
    assert OrderedAt(coin, bx, bp, script, id);
  }
}
