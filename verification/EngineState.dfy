/**
 * The replay engine as a state and a step: latency queue, event order, eviction and the cash ledger. The policy is
 * an oracle: each book event carries whatever actions the policy answered with, so every claim holds for every policy.
 */
module EngineState {
  import opened Schemas
  import Sorting
  import Sim = QueueState
  import Inv = QueueInvariant
  import FifoLaws

  datatype Config = Config(submitDelayMs: real, makerFeeBps: real, fundingRateHourly: real)

  datatype Action = PlaceQuote(key: Key, sz: Size) | CancelQuote(orderId: int) | UnknownAction

  datatype Event =
    | TradeSeen(trade: Trade)
    | BookSeen(tMs: int, view: BookView, batch: Option<BlockDiffBatch>, stale: bool, answer: seq<Action>)
    | OtherEvent

  datatype Ledger = Ledger(cash: real, inventory: real, feesPaid: real, fundingPaid: real)

  /** An action in flight: when it may rest, what it is, and the block it was submitted at. */
  datatype Pending = Pending(restsFrom: real, action: Action, submitted: nat)

  datatype Engine = Engine(config: Config, sim: Sim.SimState, pending: seq<Pending>, tradesBuf: seq<Trade>,
                           mid: Option<real>, lastT: Option<int>, ledger: Ledger, fills: seq<Fill>,
                           midSeries: seq<(int, real)>, inventorySeries: seq<(int, real)>, blocks: nat,
                           tradesSeen: nat, actionsSubmitted: nat, staleEvictions: nat)

  function Start(config: Config, sim: Sim.SimState): Engine {
    Engine(config, sim, [], [], None, None, Ledger(0.0, 0.0, 0.0, 0.0), [], [], [], 0, 0, 0, 0)
  }

  // ---------- the ledger ----------

  function Notional(fill: Fill): real {
    fill.px as real * fill.sz
  }

  function ApplyFill(l: Ledger, fill: Fill, feeBps: real): Ledger {
    var fee := Notional(fill) * feeBps / 10000.0;
    if fill.side == Bid
    then Ledger(l.cash - Notional(fill) - fee, l.inventory + fill.sz, l.feesPaid + fee, l.fundingPaid)
    else Ledger(l.cash + Notional(fill) - fee, l.inventory - fill.sz, l.feesPaid + fee, l.fundingPaid)
  }

  function ApplyFills(l: Ledger, fills: seq<Fill>, feeBps: real): Ledger {
    if fills == [] then l else ApplyFill(ApplyFills(l, fills[..|fills| - 1], feeBps), fills[|fills| - 1], feeBps)
  }

  /** Funding over the gap since the last block, on inventory marked at the last mid. */
  function Funding(e: Engine, t: int): real {
    if e.lastT.Some? && e.mid.Some? && e.config.fundingRateHourly != 0.0 && e.ledger.inventory != 0.0
    then e.ledger.inventory * e.mid.value * e.config.fundingRateHourly * (t - e.lastT.value) as real / 3600000.0
    else 0.0
  }

  // ---------- one block ----------

  function ApplyAction(s: Sim.SimState, a: Action): Sim.SimState {
    match a
    case PlaceQuote(key, sz) => Sim.Place(s, key, sz)
    case CancelQuote(id) => Sim.Cancel(s, id, false)
    case UnknownAction => s
  }

  function ApplyActions(s: Sim.SimState, due: seq<Pending>): Sim.SimState {
    if due == [] then s else ApplyAction(ApplyActions(s, due[..|due| - 1]), due[|due| - 1].action)
  }

  function Due(pending: seq<Pending>, t: int): seq<Pending> {
    if pending == [] then []
    else if pending[0].restsFrom <= t as real then [pending[0]] + Due(pending[1..], t) else Due(pending[1..], t)
  }

  function NotDue(pending: seq<Pending>, t: int): seq<Pending> {
    if pending == [] then []
    else if pending[0].restsFrom <= t as real then NotDue(pending[1..], t) else [pending[0]] + NotDue(pending[1..], t)
  }

  function PlayTrades(s: Sim.SimState, trades: seq<Trade>): (Sim.SimState, seq<Fill>) {
    if trades == [] then (s, []) else
      var (s1, f1) := PlayTrades(s, trades[..|trades| - 1]);
      var (s2, f2) := Sim.OnTrade(s1, trades[|trades| - 1]);
      (s2, f1 + f2)
  }

  function EvictAll(s: Sim.SimState, ids: seq<int>): Sim.SimState {
    if ids == [] then s else Sim.Cancel(EvictAll(s, ids[..|ids| - 1]), ids[|ids| - 1], true)
  }

  function Submit(answer: seq<Action>, restsFrom: real, block: nat): seq<Pending> {
    seq(|answer|, i requires 0 <= i < |answer| => Pending(restsFrom, answer[i], block))
  }

  /** A zero mid counts as no mid. */
  function NextMid(view: BookView, mid: Option<real>): Option<real> {
    if view.Mid().Some? && view.Mid().value != 0.0 then view.Mid() else mid
  }

  function Evicted(s: Sim.SimState, stale: bool): Sim.SimState {
    if stale then EvictAll(s, Sorting.Listing(s.registry.Keys)) else s
  }

  /** The simulator after a block's due actions, its trades, its book and the eviction, and the fills on the way. */
  function SimBlock(
      e: Engine, t: int, view: BookView, batch: Option<BlockDiffBatch>, stale: bool): (Sim.SimState, seq<Fill>, nat)
  {
    var acted := ApplyActions(e.sim, Due(e.pending, t));
    var (traded, fills) := PlayTrades(acted, e.tradesBuf);
    var booked := Sim.OnBook(traded, view, batch);
    (Evicted(booked, stale), fills, if stale then |booked.registry| else 0)
  }

  function OnBookSeen(
      e: Engine, t: int, view: BookView, batch: Option<BlockDiffBatch>, stale: bool, answer: seq<Action>): Engine
  {
    var funding := Funding(e, t);
    var (sim, fills, evicted) := SimBlock(e, t, view, batch, stale);
    var funded := e.ledger.(cash := e.ledger.cash - funding, fundingPaid := e.ledger.fundingPaid + funding);
    var ledger := ApplyFills(funded, fills, e.config.makerFeeBps);
    var mid := NextMid(view, e.mid);
    Engine(e.config, sim, NotDue(e.pending, t) + Submit(answer, t as real + e.config.submitDelayMs, e.blocks), [],
           mid, Some(t), ledger, e.fills + fills, if mid.Some? then e.midSeries + [(t, mid.value)] else e.midSeries,
           e.inventorySeries + [(t, ledger.inventory)], e.blocks + 1, e.tradesSeen + |e.tradesBuf|,
           e.actionsSubmitted + |answer|, e.staleEvictions + evicted)
  }

  function Step(e: Engine, ev: Event): Engine {
    match ev
    case TradeSeen(trade) => e.(tradesBuf := e.tradesBuf + [trade])
    case BookSeen(t, view, batch, stale, answer) => OnBookSeen(e, t, view, batch, stale, answer)
    case OtherEvent => e
  }

  function Run(e: Engine, evs: seq<Event>): Engine {
    if evs == [] then e else Step(Run(e, evs[..|evs| - 1]), evs[|evs| - 1])
  }

  // ---------- bookkeeping theorems ----------

  function Bought(fills: seq<Fill>): real {
    if fills == [] then 0.0
    else Bought(fills[..|fills| - 1]) + if fills[|fills| - 1].side == Bid then Notional(fills[|fills| - 1]) else 0.0
  }

  function Sold(fills: seq<Fill>): real {
    if fills == [] then 0.0
    else Sold(fills[..|fills| - 1]) + if fills[|fills| - 1].side == Ask then Notional(fills[|fills| - 1]) else 0.0
  }

  /** What one fill adds to the inventory. */
  function Signed(fill: Fill): real {
    var sz: real := fill.sz;
    if fill.side == Bid then sz else -sz
  }

  function NetSize(fills: seq<Fill>): real {
    if fills == [] then 0.0 else NetSize(fills[..|fills| - 1]) + Signed(fills[|fills| - 1])
  }

  lemma {:induction false} SumsAppend(a: seq<Fill>, b: seq<Fill>)
    ensures Bought(a + b) == Bought(a) + Bought(b) && Sold(a + b) == Sold(a) + Sold(b) &&
      NetSize(a + b) == NetSize(a) + NetSize(b)
  {
    hide Notional;
    if b == [] { assert a + b == a; } else {
      assert (a + b)[..|a + b| - 1] == a + b[..|b| - 1];
      SumsAppend(a, b[..|b| - 1]);
    }
  }

  lemma {:induction false} FillsLedger(l: Ledger, fills: seq<Fill>, feeBps: real)
    ensures var l' := ApplyFills(l, fills, feeBps);
      l'.cash + l'.feesPaid == l.cash + l.feesPaid + Sold(fills) - Bought(fills) &&
      l'.inventory == l.inventory + NetSize(fills) && l'.fundingPaid == l.fundingPaid
  {
    if fills != [] {
      var n := |fills| - 1;
      FillsLedger(l, fills[..n], feeBps);
      FillLedger(ApplyFills(l, fills[..n], feeBps), fills[n], feeBps);
    }
  }

  lemma FillLedger(l: Ledger, fill: Fill, feeBps: real)
    ensures var l' := ApplyFill(l, fill, feeBps);
      l'.cash + l'.feesPaid == l.cash + l.feesPaid + (if fill.side == Bid then -Notional(fill) else Notional(fill)) &&
      l'.inventory == l.inventory + Signed(fill) && l'.fundingPaid == l.fundingPaid
  {
    hide Notional;
  }

  /** At every event: cash, fees and funding make up what was sold less what was bought, and inventory the net size. */
  ghost predicate Balanced(e: Engine) {
    e.ledger.cash + e.ledger.feesPaid + e.ledger.fundingPaid == Sold(e.fills) - Bought(e.fills) &&
    e.ledger.inventory == NetSize(e.fills)
  }

  lemma StepBalanced(e: Engine, ev: Event)
    requires Balanced(e)
    ensures Balanced(Step(e, ev))
  {
    hide Notional, SimBlock, Funding, ApplyFill;
    if ev.BookSeen? {
      var fills := SimBlock(e, ev.tMs, ev.view, ev.batch, ev.stale).1;
      var funding := Funding(e, ev.tMs);
      SumsAppend(e.fills, fills);
      FillsLedger(e.ledger.(cash := e.ledger.cash - funding, fundingPaid := e.ledger.fundingPaid + funding), fills,
        e.config.makerFeeBps);
    }
  }

  lemma {:induction false} LedgerBalances(config: Config, sim: Sim.SimState, evs: seq<Event>)
    ensures Balanced(Run(Start(config, sim), evs))
  {
    if evs != [] {
      LedgerBalances(config, sim, evs[..|evs| - 1]);
      StepBalanced(Run(Start(config, sim), evs[..|evs| - 1]), evs[|evs| - 1]);
    }
  }

  // ---------- the latency queue ----------

  function BlockTimes(evs: seq<Event>): seq<int> {
    if evs == [] then [] else
      BlockTimes(evs[..|evs| - 1]) + if evs[|evs| - 1].BookSeen? then [evs[|evs| - 1].tMs] else []
  }

  /** Everything the policy submitted, in order. */
  function Submissions(config: Config, evs: seq<Event>): seq<Pending> {
    if evs == [] then [] else
      var earlier, last := evs[..|evs| - 1], evs[|evs| - 1];
      Submissions(config, earlier) +
      if last.BookSeen? then Submit(last.answer, last.tMs as real + config.submitDelayMs, |BlockTimes(earlier)|) else []
  }

  /** Everything handed to the simulator, in order. */
  function Applied(e: Engine, evs: seq<Event>): seq<Pending> {
    if evs == [] then [] else
      var earlier, last := evs[..|evs| - 1], evs[|evs| - 1];
      Applied(e, earlier) + if last.BookSeen? then Due(Run(e, earlier).pending, last.tMs) else []
  }

  /** The block each of them was handed over at. */
  function AppliedAt(e: Engine, evs: seq<Event>): seq<nat> {
    if evs == [] then [] else
      var earlier, last := evs[..|evs| - 1], evs[|evs| - 1];
      AppliedAt(e, earlier) +
      if last.BookSeen? then seq(|Due(Run(e, earlier).pending, last.tMs)|, _ => |BlockTimes(earlier)|) else []
  }

  /** A block after the submission whose time has come. */
  predicate RipeAt(p: Pending, times: seq<int>, block: nat) {
    p.submitted < block < |times| && p.restsFrom <= times[block] as real
  }

  /** `p` could not have been handed over before block `block`. */
  ghost predicate UnripeBefore(p: Pending, times: seq<int>, block: nat) {
    forall b: nat :: b < block ==> !RipeAt(p, times, b)
  }

  lemma {:induction false} DueSplits(pending: seq<Pending>, t: int)
    ensures multiset(Due(pending, t)) + multiset(NotDue(pending, t)) == multiset(pending)
  {
    if pending != [] {
      DueSplits(pending[1..], t);
      assert pending == [pending[0]] + pending[1..];
    }
  }

  lemma {:induction false} DueRipe(pending: seq<Pending>, t: int)
    ensures forall i :: 0 <= i < |Due(pending, t)| ==>
      Due(pending, t)[i].restsFrom <= t as real && Due(pending, t)[i] in pending
    ensures forall i :: 0 <= i < |NotDue(pending, t)| ==>
      t as real < NotDue(pending, t)[i].restsFrom && NotDue(pending, t)[i] in pending
  {
    if pending != [] {
      DueRipe(pending[1..], t);
    }
  }

  /** Each action is handed over at the first block after its submission at which its latency has elapsed. */
  ghost predicate FirstRipe(applied: seq<Pending>, at: seq<nat>, pending: seq<Pending>, times: seq<int>) {
    && |applied| == |at|
    && (forall i :: 0 <= i < |applied| ==> RipeAt(applied[i], times, at[i]) && UnripeBefore(applied[i], times, at[i]))
    && (forall i :: 0 <= i < |pending| ==> pending[i].submitted < |times| && UnripeBefore(pending[i], times, |times|))
  }

  lemma FirstRipeBlock(
      applied: seq<Pending>, at: seq<nat>, pending: seq<Pending>, times: seq<int>, t: int, new': seq<Pending>)
    requires FirstRipe(applied, at, pending, times)
    requires forall i :: 0 <= i < |new'| ==> new'[i].submitted == |times|
    ensures FirstRipe(applied + Due(pending, t), at + seq(|Due(pending, t)|, _ => |times|), NotDue(pending, t) + new',
      times + [t])
  {
    DueRipe(pending, t);
    var times' := times + [t];
    forall p: Pending, b: nat | b < |times| ensures RipeAt(p, times', b) == RipeAt(p, times, b) {}
    forall i | 0 <= i < |Due(pending, t)|
      ensures RipeAt(Due(pending, t)[i], times', |times|) && UnripeBefore(Due(pending, t)[i], times', |times|)
    {
      var j :| 0 <= j < |pending| && pending[j] == Due(pending, t)[i];
      assert UnripeBefore(pending[j], times, |times|);
    }
    forall i | 0 <= i < |NotDue(pending, t)|
      ensures NotDue(pending, t)[i].submitted < |times'| && UnripeBefore(NotDue(pending, t)[i], times', |times'|)
    {
      var j :| 0 <= j < |pending| && pending[j] == NotDue(pending, t)[i];
      assert UnripeBefore(pending[j], times, |times|);
    }
  }

  lemma {:induction false} BlocksCounted(config: Config, sim: Sim.SimState, evs: seq<Event>)
    ensures var e := Run(Start(config, sim), evs); e.blocks == |BlockTimes(evs)| && e.config == config
  {
    if evs != [] { BlocksCounted(config, sim, evs[..|evs| - 1]); }
  }

  /** What one block does to the latency queue and its history. */
  lemma LatencyStep(config: Config, sim: Sim.SimState, evs: seq<Event>)
    requires evs != []
    ensures var e0, n := Start(config, sim), |evs| - 1; var e := Run(e0, evs[..n]);
      if evs[n].BookSeen? then
        var t := evs[n].tMs;
        var new' := Submit(evs[n].answer, t as real + config.submitDelayMs, |BlockTimes(evs[..n])|);
        Run(e0, evs).pending == NotDue(e.pending, t) + new' &&
        Applied(e0, evs) == Applied(e0, evs[..n]) + Due(e.pending, t) &&
        AppliedAt(e0, evs) == AppliedAt(e0, evs[..n]) + seq(|Due(e.pending, t)|, _ => |BlockTimes(evs[..n])|) &&
        BlockTimes(evs) == BlockTimes(evs[..n]) + [t] &&
        Submissions(config, evs) == Submissions(config, evs[..n]) + new'
      else
        Run(e0, evs).pending == e.pending && Applied(e0, evs) == Applied(e0, evs[..n]) &&
        AppliedAt(e0, evs) == AppliedAt(e0, evs[..n]) &&
        BlockTimes(evs) == BlockTimes(evs[..n]) && Submissions(config, evs) == Submissions(config, evs[..n])
  {
    hide SimBlock, ApplyFills, Funding, Due, NotDue, Submit;
    BlocksCounted(config, sim, evs[..|evs| - 1]);
  }

  lemma SubmitLaw(answer: seq<Action>, restsFrom: real, block: nat)
    ensures forall i :: 0 <= i < |Submit(answer, restsFrom, block)| ==>
      Submit(answer, restsFrom, block)[i].submitted == block
  {}

  lemma EmptyHistory(config: Config, sim: Sim.SimState)
    ensures var e0 := Start(config, sim);
      Run(e0, []).pending == [] && Applied(e0, []) == [] && AppliedAt(e0, []) == [] && BlockTimes([]) == [] &&
      Submissions(config, []) == [] &&
      FirstRipe(Applied(e0, []), AppliedAt(e0, []), Run(e0, []).pending, BlockTimes([])) &&
      QueuedAfter(Run(e0, []).pending, BlockTimes([]), config.submitDelayMs)
  {}

  /** Every submitted action is applied once or still pending, and applied as soon as its latency has elapsed. */
  lemma {:induction false} AppliedOnceWhenRipe(config: Config, sim: Sim.SimState, evs: seq<Event>)
    ensures var e0 := Start(config, sim); var e := Run(e0, evs);
      FirstRipe(Applied(e0, evs), AppliedAt(e0, evs), e.pending, BlockTimes(evs)) &&
      multiset(Applied(e0, evs)) + multiset(e.pending) == multiset(Submissions(config, evs))
  {
    hide *;
    if evs == [] {
      EmptyHistory(config, sim);
    } else {
      var e0, n := Start(config, sim), |evs| - 1;
      AppliedOnceWhenRipe(config, sim, evs[..n]);
      LatencyStep(config, sim, evs);
      if evs[n].BookSeen? {
        var pending, t := Run(e0, evs[..n]).pending, evs[n].tMs;
        var new' := Submit(evs[n].answer, t as real + config.submitDelayMs, |BlockTimes(evs[..n])|);
        SubmitLaw(evs[n].answer, t as real + config.submitDelayMs, |BlockTimes(evs[..n])|);
        FirstRipeBlock(Applied(e0, evs[..n]), AppliedAt(e0, evs[..n]), pending, BlockTimes(evs[..n]), t, new');
        DueSplits(pending, t);
      }
    }
  }

  predicate Nondecreasing(times: seq<int>) {
    forall i, j :: 0 <= i < j < |times| ==> times[i] <= times[j]
  }

  ghost predicate Queued(pending: seq<Pending>, latest: real) {
    (forall i, j :: 0 <= i < j < |pending| ==> pending[i].restsFrom <= pending[j].restsFrom) &&
    forall i :: 0 <= i < |pending| ==> pending[i].restsFrom <= latest
  }

  /** In a queue ordered by ripeness the due actions are a prefix. */
  lemma {:induction false} DueIsAPrefix(pending: seq<Pending>, t: int, latest: real)
    requires Queued(pending, latest)
    ensures Due(pending, t) + NotDue(pending, t) == pending
    ensures Queued(NotDue(pending, t), latest)
  {
    if pending != [] {
      DueIsAPrefix(pending[1..], t, latest);
      assert pending == [pending[0]] + pending[1..];
      if pending[0].restsFrom > t as real {
        NoneDue(pending, t);
      }
    }
  }

  lemma {:induction false} NoneDue(pending: seq<Pending>, t: int)
    requires forall i :: 0 <= i < |pending| ==> pending[i].restsFrom > t as real
    ensures Due(pending, t) == [] && NotDue(pending, t) == pending
  {
    if pending != [] { NoneDue(pending[1..], t); }
  }

  /** With block times that never go back, actions are applied in the order they were submitted. */
  lemma {:induction false} AppliedInOrder(config: Config, sim: Sim.SimState, evs: seq<Event>)
    requires Nondecreasing(BlockTimes(evs))
    ensures var e0 := Start(config, sim); Applied(e0, evs) + Run(e0, evs).pending == Submissions(config, evs)
    ensures QueuedAfter(Run(Start(config, sim), evs).pending, BlockTimes(evs), config.submitDelayMs)
  {
    hide *;
    if evs == [] {
      EmptyHistory(config, sim);
    } else {
      var e0, n := Start(config, sim), |evs| - 1;
      LatencyStep(config, sim, evs);
      ShorterTimes(evs);
      AppliedInOrder(config, sim, evs[..n]);
      if evs[n].BookSeen? {
        var pending, t := Run(e0, evs[..n]).pending, evs[n].tMs;
        var new' := Submit(evs[n].answer, t as real + config.submitDelayMs, |BlockTimes(evs[..n])|);
        QueuedStep(pending, BlockTimes(evs[..n]), t, config.submitDelayMs, evs[n].answer);
        assert Applied(e0, evs) + (NotDue(pending, t) + new') ==
          Applied(e0, evs[..n]) + (Due(pending, t) + NotDue(pending, t)) + new';
      }
    }
  }

  ghost predicate QueuedAfter(pending: seq<Pending>, times: seq<int>, delay: real) {
    if times == [] then pending == [] else Queued(pending, times[|times| - 1] as real + delay)
  }

  lemma ShorterTimes(evs: seq<Event>)
    requires evs != [] && Nondecreasing(BlockTimes(evs))
    ensures Nondecreasing(BlockTimes(evs[..|evs| - 1]))
  {
    var earlier := BlockTimes(evs[..|evs| - 1]);
    assert forall i :: 0 <= i < |earlier| ==> earlier[i] == BlockTimes(evs)[i];
  }

  lemma QueuedStep(pending: seq<Pending>, times: seq<int>, t: int, delay: real, answer: seq<Action>)
    requires QueuedAfter(pending, times, delay) && Nondecreasing(times + [t])
    ensures Due(pending, t) + NotDue(pending, t) == pending
    ensures QueuedAfter(NotDue(pending, t) + Submit(answer, t as real + delay, |times|), times + [t], delay)
  {
    var latest := if times == [] then t as real + delay else times[|times| - 1] as real + delay;
    if times != [] { assert (times + [t])[|times| - 1] <= (times + [t])[|times|]; }
    DueIsAPrefix(pending, t, latest);
  }

  // ---------- eviction ----------

  lemma {:induction false} EvictLaw(s: Sim.SimState, ids: seq<int>)
    requires Inv.Inv(s)
    ensures var s' := EvictAll(s, ids);
      Inv.Inv(s') && s'.registry == s.registry - (set id | id in ids) && s'.coin == s.coin && s'.bound == s.bound
  {
    if ids != [] {
      var n := |ids| - 1;
      EvictLaw(s, ids[..n]);
      Inv.CancelLaw(EvictAll(s, ids[..n]), ids[n], true);
      assert ids == ids[..n] + [ids[n]];
    }
  }

  lemma TrackedHasOrder(s: Sim.SimState, k: Key)
    requires Inv.Inv(s) && k in s.levels
    ensures s.registry.Keys != {}
  {
    assert Inv.LevelOk(s.bound, s.levels[k], s.nextId);
    var id := FifoLaws.QuotedHasOwn(s.levels[k].queue);
    assert Inv.Lists(s.levels, k, id);
  }

  /** A stale block leaves no order open and no level tracked. */
  lemma EvictedIsEmpty(s: Sim.SimState, stale: bool)
    requires Inv.Inv(s)
    ensures Inv.Inv(Evicted(s, stale)) && Evicted(s, stale).coin == s.coin && Evicted(s, stale).bound == s.bound
    ensures stale ==> Evicted(s, stale).registry == map[] && Evicted(s, stale).levels == map[]
  {
    if stale {
      var ids := Sorting.Listing(s.registry.Keys);
      EvictLaw(s, ids);
      var s' := EvictAll(s, ids);
      assert s'.registry.Keys == {};
      forall k ensures k !in s'.levels {
        if k in s'.levels { TrackedHasOrder(s', k); }
      }
    }
  }

  lemma {:induction false} ActionsKeepInv(s: Sim.SimState, due: seq<Pending>)
    requires Inv.Inv(s)
    ensures var s' := ApplyActions(s, due); Inv.Inv(s') && s'.coin == s.coin && s'.bound == s.bound
  {
    if due != [] {
      var n := |due| - 1;
      ActionsKeepInv(s, due[..n]);
      var s1 := ApplyActions(s, due[..n]);
      match due[n].action
      case PlaceQuote(key, sz) => Inv.PlaceLaw(s1, key, sz);
      case CancelQuote(id) => Inv.CancelLaw(s1, id, false);
      case UnknownAction =>
    }
  }

  lemma {:induction false} TradesKeepInv(s: Sim.SimState, trades: seq<Trade>)
    requires Inv.Inv(s)
    ensures var s' := PlayTrades(s, trades).0; Inv.Inv(s') && s'.coin == s.coin && s'.bound == s.bound
  {
    if trades != [] {
      TradesKeepInv(s, trades[..|trades| - 1]);
      Inv.OnTradeLaw(PlayTrades(s, trades[..|trades| - 1]).0, trades[|trades| - 1]);
    }
  }

  /** A whole block keeps the simulator's invariant, and a stale one clears it out. */
  lemma BlockKeepsInv(e: Engine, t: int, view: BookView, batch: Option<BlockDiffBatch>, stale: bool)
    requires Inv.Inv(e.sim)
    ensures var sim := SimBlock(e, t, view, batch, stale).0;
      Inv.Inv(sim) && sim.coin == e.sim.coin && sim.bound == e.sim.bound &&
      (stale ==> sim.registry == map[] && sim.levels == map[])
  {
    var acted := ApplyActions(e.sim, Due(e.pending, t));
    var traded := PlayTrades(acted, e.tradesBuf).0;
    ActionsKeepInv(e.sim, Due(e.pending, t));
    TradesKeepInv(acted, e.tradesBuf);
    Inv.OnBookLaw(traded, view, batch);
    EvictedIsEmpty(Sim.OnBook(traded, view, batch), stale);
  }

  /** Over any run the simulator under the engine keeps its invariant, and a stale block ends with nothing open. */
  lemma {:induction false} RunKeepsInv(config: Config, sim: Sim.SimState, evs: seq<Event>)
    requires Inv.Inv(sim)
    ensures var e := Run(Start(config, sim), evs);
      Inv.Inv(e.sim) &&
      (evs != [] && evs[|evs| - 1].BookSeen? && evs[|evs| - 1].stale ==>
         e.sim.registry == map[] && e.sim.levels == map[])
  {
    hide SimBlock, ApplyFills, Funding, Inv.Inv;
    if evs != [] {
      var n := |evs| - 1;
      RunKeepsInv(config, sim, evs[..n]);
      if evs[n].BookSeen? {
        BlockKeepsInv(Run(Start(config, sim), evs[..n]), evs[n].tMs, evs[n].view, evs[n].batch, evs[n].stale);
      }
    }
  }

  // ---------- actions against a stale view ----------

  /** How many of the actions place an order. */
  function PlacesIn(due: seq<Pending>): nat {
    if due == [] then 0 else PlacesIn(due[..|due| - 1]) + if due[|due| - 1].action.PlaceQuote? then 1 else 0
  }

  lemma {:induction false} ActionsCount(s: Sim.SimState, due: seq<Pending>)
    requires Inv.Inv(s)
    ensures ApplyActions(s, due).nextId == s.nextId + PlacesIn(due)
  {
    hide Sim.Place, Sim.Cancel, Inv.Inv;
    if due != [] {
      var n := |due| - 1;
      ActionsCount(s, due[..n]);
      ActionsKeepInv(s, due[..n]);
      var s1 := ApplyActions(s, due[..n]);
      match due[n].action
      case PlaceQuote(key, sz) => Inv.PlaceLaw(s1, key, sz);
      case CancelQuote(id) => Inv.CancelLaw(s1, id, false);
      case UnknownAction =>
    }
  }

  lemma {:induction false} TradesPlaceNothing(s: Sim.SimState, trades: seq<Trade>)
    requires Inv.Inv(s)
    ensures PlayTrades(s, trades).0.nextId == s.nextId
  {
    hide Sim.OnTrade, Inv.Inv;
    if trades != [] {
      var n := |trades| - 1;
      TradesPlaceNothing(s, trades[..n]);
      TradesKeepInv(s, trades[..n]);
      Inv.OnTradeLaw(PlayTrades(s, trades[..n]).0, trades[n]);
    }
  }

  lemma {:induction false} EvictionPlacesNothing(s: Sim.SimState, ids: seq<int>)
    requires Inv.Inv(s)
    ensures EvictAll(s, ids).nextId == s.nextId
  {
    hide Sim.Cancel, Inv.Inv;
    if ids != [] {
      var n := |ids| - 1;
      EvictionPlacesNothing(s, ids[..n]);
      EvictLaw(s, ids[..n]);
      Inv.CancelLaw(EvictAll(s, ids[..n]), ids[n], true);
    }
  }

  /** A block rests every due place, stale or not: order ids are used up even when the eviction clears the orders. */
  lemma BlockCountsPlaces(e: Engine, t: int, view: BookView, batch: Option<BlockDiffBatch>, stale: bool)
    requires Inv.Inv(e.sim)
    ensures SimBlock(e, t, view, batch, stale).0.nextId == e.sim.nextId + PlacesIn(Due(e.pending, t))
  {
    hide Inv.Inv, ApplyActions, PlayTrades, Sim.OnBook, EvictAll, PlacesIn;
    var acted := ApplyActions(e.sim, Due(e.pending, t));
    var traded := PlayTrades(acted, e.tradesBuf).0;
    ActionsKeepInv(e.sim, Due(e.pending, t));
    ActionsCount(e.sim, Due(e.pending, t));
    TradesKeepInv(acted, e.tradesBuf);
    TradesPlaceNothing(acted, e.tradesBuf);
    Inv.OnBookLaw(traded, view, batch);
    var booked := Sim.OnBook(traded, view, batch);
    EvictionPlacesNothing(booked, Sorting.Listing(booked.registry.Keys));
  }

  /** The action places an order, or cancels one that is open. */
  predicate ActsOn(s: Sim.SimState, a: Action) {
    a.PlaceQuote? || (a.CancelQuote? && a.orderId in s.registry)
  }

  /** One of the actions does so when its turn comes. */
  ghost predicate SomeActs(s: Sim.SimState, due: seq<Pending>) {
    exists i :: 0 <= i < |due| && ActsOn(ApplyActions(s, due[..i]), due[i].action)
  }

  /** `s'` has used up an id or lost an order. */
  ghost predicate Moved(s: Sim.SimState, s': Sim.SimState) {
    s'.nextId > s.nextId || exists id :: id in s.registry && id !in s'.registry
  }

  lemma IdleAction(s: Sim.SimState, a: Action)
    ensures !ActsOn(s, a) ==> ApplyAction(s, a) == s
  {}

  lemma LastActs(s: Sim.SimState, due: seq<Pending>)
    requires due != []
    ensures var n := |due| - 1;
      SomeActs(s, due) <==> SomeActs(s, due[..n]) || ActsOn(ApplyActions(s, due[..n]), due[n].action)
  {
    hide ActsOn, ApplyActions;
    var n := |due| - 1;
    if SomeActs(s, due[..n]) {
      var i :| 0 <= i < n && ActsOn(ApplyActions(s, due[..n][..i]), due[..n][i].action);
      assert due[..n][..i] == due[..i];
    }
    if SomeActs(s, due) {
      var i :| 0 <= i < |due| && ActsOn(ApplyActions(s, due[..i]), due[i].action);
      if i < n { assert due[..n][..i] == due[..i] && due[..n][i] == due[i]; }
    }
  }

  lemma MovedFurther(s: Sim.SimState, s1: Sim.SimState, a: Action)
    requires Inv.Inv(s1) && s1.nextId >= s.nextId && (s1.nextId == s.nextId ==> s1.registry.Keys <= s.registry.Keys)
    ensures var s' := ApplyAction(s1, a);
      && s'.nextId >= s.nextId && (s'.nextId == s.nextId ==> s'.registry.Keys <= s.registry.Keys)
      && (Moved(s, s1) || ActsOn(s1, a) ==> Moved(s, s'))
  {
    hide Inv.Inv, Sim.Place, Sim.Cancel;
    match a
    case PlaceQuote(key, sz) => Inv.PlaceLaw(s1, key, sz);
    case CancelQuote(id) => Inv.CancelLaw(s1, id, false);
    case UnknownAction =>
  }

  lemma {:induction false} ActionsMove(s: Sim.SimState, due: seq<Pending>)
    requires Inv.Inv(s)
    ensures var s' := ApplyActions(s, due);
      && s'.nextId >= s.nextId && (s'.nextId == s.nextId ==> s'.registry.Keys <= s.registry.Keys)
      && (if SomeActs(s, due) then Moved(s, s') else s' == s)
  {
    hide Inv.Inv, ApplyAction, ActsOn, SomeActs, Moved;
    if due == [] {
      NobodyActs(s);
    } else {
      var n := |due| - 1;
      var s1 := ApplyActions(s, due[..n]);
      ActionsMove(s, due[..n]);
      ActionsKeepInv(s, due[..n]);
      LastActs(s, due);
      IdleAction(s1, due[n].action);
      MovedFurther(s, s1, due[n].action);
    }
  }

  lemma NobodyActs(s: Sim.SimState)
    ensures !SomeActs(s, [])
  {}

  lemma MovedDiffers(s: Sim.SimState, s': Sim.SimState)
    ensures Moved(s, s') ==> s' != s
  {}

  /**
   * A block, stale or not, changes the simulator before its prints exactly when a due action places an order or
   * cancels one that is open when its turn comes.
   */
  lemma StaleBlockActsIff(config: Config, sim: Sim.SimState, evs: seq<Event>, t: int)
    requires Inv.Inv(sim)
    ensures var e := Run(Start(config, sim), evs);
      ApplyActions(e.sim, Due(e.pending, t)) != e.sim <==> SomeActs(e.sim, Due(e.pending, t))
  {
    hide Run, Inv.Inv, ApplyActions, SomeActs, Moved;
    RunKeepsInv(config, sim, evs);
    var e := Run(Start(config, sim), evs);
    ActionsMove(e.sim, Due(e.pending, t));
    MovedDiffers(e.sim, ApplyActions(e.sim, Due(e.pending, t)));
  }

  const FIRST_QUOTE := PlaceQuote(Key(Bid, 99), 1.0)

  /** A policy quotes on the first block; the next one is stale. */
  function StaleTape(view: BookView): seq<Event> {
    [BookSeen(0, view, None, false, [FIRST_QUOTE]), BookSeen(10, view, None, true, [])]
  }

  lemma AfterFirst(view: BookView)
    ensures var e := Step(Start(Config(0.0, 0.0, 0.0), Sim.Init("COIN", Pessimistic)), StaleTape(view)[0]);
      && e.sim == Sim.Init("COIN", Pessimistic).(view := Some(view), stats := e.sim.stats)
      && e.pending == [Pending(0.0, FIRST_QUOTE, 0)] && e.tradesBuf == []
  {
    assert Submit([FIRST_QUOTE], 0.0, 0) == [Pending(0.0, FIRST_QUOTE, 0)];
  }

  lemma TwoEvents(e: Engine, a: Event, b: Event)
    ensures Run(e, [a]) == Step(e, a) && Run(e, [a, b]) == Step(Step(e, a), b)
  {
    hide Step;
    assert [a][..0] == [] && [a, b][..1] == [a];
  }

  lemma OneDue()
    ensures var quote := Pending(0.0, FIRST_QUOTE, 0); Due([quote], 10) == [quote] && PlacesIn([quote]) == 1
  {
    var quote := Pending(0.0, FIRST_QUOTE, 0);
    assert [quote][1..] == [] && [quote][..0] == [];
  }

  /** Before any order is placed nothing is open and nothing tracked. */
  lemma NothingPlaced(s: Sim.SimState, view: BookView)
    requires s == Sim.Init("COIN", Pessimistic).(view := Some(view), stats := s.stats)
    ensures Inv.Inv(s) && s.registry == map[] && s.nextId == 1
    ensures ApplyActions(s, [Pending(0.0, FIRST_QUOTE, 0)]).registry == map[1 := Key(Bid, 99)]
  {
    assert [Pending(0.0, FIRST_QUOTE, 0)][..0] == [];
  }

  /** On it the quote rests on the stale view, takes id 1, and is gone after the eviction. */
  lemma StaleViewSeesAPlace(view: BookView)
    ensures var start := Start(Config(0.0, 0.0, 0.0), Sim.Init("COIN", Pessimistic));
      var before, after := Run(start, StaleTape(view)[..1]), Run(start, StaleTape(view));
      && before.sim.registry == map[] && before.sim.nextId == 1
      && ApplyActions(before.sim, Due(before.pending, 10)).registry == map[1 := Key(Bid, 99)]
      && after.sim.registry == map[] && after.sim.nextId == 2
  {
    hide SimBlock, Run, Start, Due, PlacesIn, ApplyActions, Inv.Inv;
    var start := Start(Config(0.0, 0.0, 0.0), Sim.Init("COIN", Pessimistic));
    TwoEvents(start, StaleTape(view)[0], StaleTape(view)[1]);
    assert StaleTape(view)[..1] == [StaleTape(view)[0]];
    assert StaleTape(view) == [StaleTape(view)[0], StaleTape(view)[1]];
    AfterFirst(view);
    var e := Step(start, StaleTape(view)[0]);
    OneDue();
    NothingPlaced(e.sim, view);
    BlockKeepsInv(e, 10, view, None, true);
    BlockCountsPlaces(e, 10, view, None, true);
  }
}
