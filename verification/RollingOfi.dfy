/** The policy's incremental order-flow signal, kept in a deque, against the batch series. */
module RollingOfi {
  import opened Schemas
  import opened Ofi

  const CAP := 3.0

  /** The flows no older than `horizon`. */
  function Since(flows: seq<Flow>, horizon: int): seq<Flow> {
    if flows == [] then [] else
      Since(flows[..|flows| - 1], horizon) + if flows[|flows| - 1].0 >= horizon then [flows[|flows| - 1]] else []
  }

  predicate InOrder(events: seq<BboEvent>) {
    forall i, j :: 0 <= i < j < |events| ==> events[i].tMs <= events[j].tMs
  }

  ghost predicate FlowsInOrder(flows: seq<Flow>) {
    forall i, j :: 0 <= i < j < |flows| ==> flows[i].0 <= flows[j].0
  }

  /** The best levels of a two-sided view. */
  function Top(view: BookView, t: int): Option<BboEvent> {
    if view.BestBid().None? || view.BestAsk().None? then None
    else
      var bid, ask := view.BestBid().value, view.BestAsk().value;
      Some(BboEvent(t, bid.px, bid.sz, ask.px, ask.sz))
  }

  // ---------- trimming the deque ----------

  lemma {:induction false} SinceSince(flows: seq<Flow>, a: int, b: int)
    requires a <= b
    ensures Since(Since(flows, a), b) == Since(flows, b)
  {
    if flows != [] {
      var n := |flows| - 1;
      SinceSince(flows[..n], a, b);
      if flows[n].0 >= a {
        SinceOne(Since(flows[..n], a), flows[n], b);
      } else {
        assert Since(flows, a) == Since(flows[..n], a);
      }
    }
  }

  lemma SinceOne(flows: seq<Flow>, f: Flow, horizon: int)
    ensures Since(flows + [f], horizon) == Since(flows, horizon) + if f.0 >= horizon then [f] else []
  {
    assert (flows + [f])[..|flows|] == flows;
  }

  /** A deque in time order whose head is young enough is young enough throughout. */
  lemma {:induction false} AllYoung(flows: seq<Flow>, horizon: int)
    requires FlowsInOrder(flows) && (flows != [] ==> flows[0].0 >= horizon)
    ensures Since(flows, horizon) == flows
  {
    if flows != [] {
      AllYoung(flows[..|flows| - 1], horizon);
      assert flows[|flows| - 1].0 >= flows[0].0;
      assert flows == flows[..|flows| - 1] + [flows[|flows| - 1]];
    }
  }

  lemma {:induction false} DropOld(flows: seq<Flow>, horizon: int)
    requires flows != [] && flows[0].0 < horizon
    ensures Since(flows[1..], horizon) == Since(flows, horizon)
  {
    if |flows| > 1 {
      var n := |flows| - 1;
      DropOld(flows[..n], horizon);
      assert flows[1..][..n - 1] == flows[..n][1..];
    }
  }

  lemma {:induction false} FlowsOrdered(events: seq<BboEvent>)
    requires InOrder(events)
    ensures FlowsInOrder(Flows(events)) &&
      forall i :: 0 <= i < |Flows(events)| ==> Flows(events)[i].0 == events[i + 1].tMs
  {
    if |events| >= 2 { FlowsOrdered(events[..|events| - 1]); }
  }

  lemma {:induction false} SinceOrdered(flows: seq<Flow>, horizon: int)
    requires FlowsInOrder(flows)
    ensures FlowsInOrder(Since(flows, horizon)) && forall f :: f in Since(flows, horizon) ==> f in flows
  {
    if flows != [] {
      var n := |flows| - 1;
      SinceOrdered(flows[..n], horizon);
      var kept := Since(flows[..n], horizon);
      forall i | 0 <= i < |kept| ensures kept[i].0 <= flows[n].0 {
        assert kept[i] in kept;
        var k :| 0 <= k < n && flows[k] == kept[i];
      }
    }
  }

  class RollingOfiSignal {
    const windowMs: int
    const warmup: nat
    const alpha: real
    var events: seq<Flow>
    var prev: Option<BboEvent>
    var norm: real
    var updates: nat
    /** Every two-sided top of book fed so far. */
    ghost var history: seq<BboEvent>

    /** The deque holds exactly the batch flows within the window, whenever time never ran backwards. */
    ghost predicate Valid()
      reads this
    {
      && (prev == if history == [] then None else Some(history[|history| - 1]))
      && (InOrder(history) ==> events == Windowed(history, windowMs))
    }

    constructor (windowMs: int, warmup: nat, alpha: real)
      ensures Valid() && history == [] && events == [] && norm == 0.0 && updates == 0
      ensures this.windowMs == windowMs && this.warmup == warmup && this.alpha == alpha
    {
      this.windowMs, this.warmup, this.alpha := windowMs, warmup, alpha;
      events, prev, norm, updates, history := [], None, 0.0, 0, [];
    }

    /** Forgets the flows older than the window. */
    method Trim(horizon: int)
      modifies this`events
      ensures FlowsInOrder(old(events)) ==> events == Since(old(events), horizon)
    {
      while events != [] && events[0].0 < horizon
        invariant FlowsInOrder(old(events)) ==> FlowsInOrder(events)
        invariant Since(events, horizon) == Since(old(events), horizon)
      {
        DropOld(events, horizon);
        events := events[1..];
      }
      if FlowsInOrder(old(events)) { AllYoung(events, horizon); }
    }

    method Sum() returns (ofi: real)
      ensures ofi == FlowSum(events)
    {
      ofi := 0.0;
      for i := 0 to |events|
        invariant ofi == FlowSum(events[..i])
      {
        assert events[..i + 1][..i] == events[..i];
        ofi := ofi + events[i].1;
      }
      assert events[..|events|] == events;
    }

    static method FlowBetween(prev: BboEvent, cur: BboEvent) returns (e: real)
      ensures e == Contribution(prev, cur)
    {
      e := 0.0;
      if cur.bidPx >= prev.bidPx { e := e + cur.bidSz; }
      if cur.bidPx <= prev.bidPx { e := e - prev.bidSz; }
      if cur.askPx <= prev.askPx { e := e - cur.askSz; }
      if cur.askPx >= prev.askPx { e := e + prev.askSz; }
    }

    /** Books the change from the last top of book and moves the window on. */
    method Push(cur: BboEvent)
      requires Valid()
      modifies this`events, this`prev, this`history
      ensures Valid() && history == old(history) + [cur]
    {
      hide Flows, Since, Contribution, InOrder;
      if prev.Some? {
        var e := FlowBetween(prev.value, cur);
        events := events + [(cur.tMs, e)];
      }
      ghost var before := history;
      prev, history := Some(cur), history + [cur];
      if InOrder(history) { Earlier(before, cur); }
      assert InOrder(history) ==> events == Fed(before, cur, windowMs);
      Trim(cur.tMs - windowMs);
      if InOrder(history) { WindowMoves(before, cur, windowMs); }
    }

    /** Feeds one block's best levels; answers the normalized windowed flow. */
    method Update(view: BookView, t: int) returns (signal: real)
      requires Valid()
      modifies this
      ensures Valid() && -CAP <= signal <= CAP
      ensures Top(view, t).None? ==>
        signal == 0.0 && history == old(history) && events == old(events) && norm == old(norm) &&
        updates == old(updates)
      ensures Top(view, t).Some? ==> history == old(history) + [Top(view, t).value] && updates == old(updates) + 1
      ensures Top(view, t).Some? && InOrder(history) ==>
        var ofi := FlowSum(Since(Flows(history), t - windowMs));
        norm == old(norm) + alpha * (Abs(ofi) - old(norm)) &&
        signal == if updates < warmup || norm <= 0.0 then 0.0 else Max(-CAP, Min(CAP, ofi / norm))
    {
      hide Flows, Since, FlowSum, InOrder;
      var top := Top(view, t);
      if top.None? {
        return 0.0;
      }
      Push(top.value);
      var ofi := Sum();
      norm := norm + alpha * (Abs(ofi) - norm);
      updates := updates + 1;
      if updates < warmup || norm <= 0.0 {
        return 0.0;
      }
      signal := Max(-CAP, Min(CAP, ofi / norm));
    }
  }

  /** The batch flows of the window that ends at the last event. */
  function Windowed(history: seq<BboEvent>, windowMs: int): seq<Flow> {
    if history == [] then [] else Since(Flows(history), history[|history| - 1].tMs - windowMs)
  }

  /** The deque once the newest event's flow is in and before it is trimmed. */
  function Fed(history: seq<BboEvent>, cur: BboEvent, windowMs: int): seq<Flow> {
    Windowed(history, windowMs) + if history == [] then [] else [(cur.tMs, Contribution(history[|history| - 1], cur))]
  }

  lemma Earlier(history: seq<BboEvent>, cur: BboEvent)
    requires InOrder(history + [cur])
    ensures InOrder(history) && forall i :: 0 <= i < |history| ==> history[i].tMs <= cur.tMs
  {
    var more := history + [cur];
    assert more[|history|] == cur && forall i :: 0 <= i < |history| ==> more[i] == history[i];
  }

  lemma FlowsOneMore(history: seq<BboEvent>, cur: BboEvent)
    requires history != []
    ensures Flows(history + [cur]) == Flows(history) + [(cur.tMs, Contribution(history[|history| - 1], cur))]
  {
    hide Contribution;
    FlowsLast(history + [cur]);
    assert (history + [cur])[..|history|] == history;
  }

  lemma FlowsLast(events: seq<BboEvent>)
    requires |events| >= 2
    ensures var n := |events| - 1;
      Flows(events) == Flows(events[..n]) + [(events[n].tMs, Contribution(events[n - 1], events[n]))]
  {
    hide Contribution;
  }

  /** Appending an event's flow and trimming takes one window's flows to the next's. */
  lemma WindowMoves(history: seq<BboEvent>, cur: BboEvent, windowMs: int)
    requires InOrder(history + [cur])
    ensures FlowsInOrder(Fed(history, cur, windowMs)) &&
      Since(Fed(history, cur, windowMs), cur.tMs - windowMs) == Windowed(history + [cur], windowMs)
  {
    hide Contribution, Flows, Since, InOrder;
    Earlier(history, cur);
    if history == [] {
      NoFlows(cur, windowMs);
    } else {
      var f := (cur.tMs, Contribution(history[|history| - 1], cur));
      var flows, horizon := Flows(history), history[|history| - 1].tMs - windowMs;
      FlowsOneMore(history, cur);
      FlowsOrdered(history);
      SinceOrdered(flows, horizon);
      forall g | g in Since(flows, horizon) ensures g.0 <= cur.tMs {
        var k :| 0 <= k < |flows| && flows[k] == g;
      }
      SinceSince(flows, horizon, cur.tMs - windowMs);
      SinceOne(Since(flows, horizon), f, cur.tMs - windowMs);
      SinceOne(flows, f, cur.tMs - windowMs);
    }
  }

  lemma NoFlows(cur: BboEvent, windowMs: int)
    ensures Fed([], cur, windowMs) == [] && Since([], cur.tMs - windowMs) == [] && Windowed([] + [cur], windowMs) == []
  {}
}
