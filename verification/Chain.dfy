/**
 * The full chain. When a script quotes each price at most once, fills are ordered
 * OPTIMISTIC >= PRORATA >= PESSIMISTIC and real queue-ahead the other way round, at every step.
 */
module Chain {
  import opened Schemas
  import opened Fifo
  import opened FifoLaws
  import opened ReconcileLaws
  import opened QueueState
  import opened QueueInvariant
  import opened Bracket
  import opened Edges
  import opened Floor

  predicate QuotesOnce(es: seq<Event>) {
    var orders := Placements(es);
    forall i, j :: 0 <= i < j < |orders| ==> orders[i].0 != orders[j].0
  }

  // ---------- a level with one order ----------

  ghost predicate OnlyOwn(q: Queue, id: int) {
    forall j :: HasOwn(q, j) ==> j == id
  }

  lemma {:induction false} AloneAhead(q: Queue, id: int)
    requires OnlyOwn(q, id)
    ensures VolumeAhead(q, id) == RealBefore(q, id)
  {
    if q != [] && !(q[0].Own? && q[0].id == id) {
      assert q[0].Own? ==> HasOwn(q, q[0].id);
      forall j | HasOwn(q[1..], j) ensures j == id { assert HasOwn(q, j); }
      AloneAhead(q[1..], id);
    }
  }

  /** While a print stays within the real volume ahead of the only order here, it only shrinks real volume. */
  lemma {:induction false} PrintInsideAhead(q: Queue, budget: Size, ahead: Size, id: int)
    requires OnlyOwn(q, id) && HasOwn(q, id) && budget <= RealBefore(q, id)
    ensures RealSize(WalkAt(false, q, budget, 0.0, ahead).queue) == RealSize(q) - budget
  {
    if budget > 0.0 {
      if q[0].Own? { assert HasOwn(q, q[0].id); }
      forall j | HasOwn(q[1..], j) ensures j == id { assert HasOwn(q, j); }
      var take := Min(budget, q[0].sz);
      PrintInsideAhead(q[1..], budget - take, ahead + q[0].sz, id);
    }
  }

  // ---------- OPTIMISTIC against PRORATA ----------

  /** `o` is below `r`, and as long as anything real is ahead in `o` the two track the same real total. */
  ghost predicate Nested(o: Queue, r: Queue) {
    LevelBelow(o, r) && forall id :: HasOwn(o, id) ==> RealBefore(o, id) == 0.0 || RealSize(o) == RealSize(r)
  }

  lemma NestedAfterPrint(o: LevelState, r: LevelState, pr: Print, hi: int, id: int)
    requires Ascending(o.queue, 0, hi) && Ascending(r.queue, 0, hi) && Nested(o.queue, r.queue)
    requires OnlyOwn(o.queue, id) && OnlyOwn(r.queue, id)
    ensures Nested(AfterPrint(false, o, pr).queue, AfterPrint(false, r, pr).queue)
  {
    BelowPrint(o, r, pr, 0, hi);
    var wo, wr := Walk(false, o, pr).queue, Walk(false, r, pr).queue;
    var o', r' := Sweep(false, wo), Sweep(false, wr);
    forall j | HasOwn(o', j) ensures RealBefore(o', j) == 0.0 || RealSize(o') == RealSize(r') {
      match pr
      case At(sz) =>
        WalkAtPays(false, o.queue, sz, 0.0, 0.0, 0, hi, j);
        WalkAtPays(false, r.queue, sz, 0.0, 0.0, 0, hi, j);
        SweepLaw(false, wo, 0, hi, j);
        SweepLaw(false, wr, 0, hi, j);
        assert HasOwn(o.queue, j) && j == id && HasOwn(r.queue, j);
        AloneAhead(o.queue, id);
        AloneAhead(r.queue, id);
        if sz <= RealBefore(o.queue, id) {
          PrintInsideAhead(o.queue, sz, 0.0, id);
          PrintInsideAhead(r.queue, sz, 0.0, id);
          WalkAtLaw(o.queue, sz, 0.0, id);
        } else {
          WalkAtLaw(o.queue, sz, 0.0, id);
          AheadSplits(wo, id);
        }
      case Through =>
        WalkThroughPays(false, o.queue, 0.0, 0.0, 0, hi, j);
        SweepLaw(false, wo, 0, hi, j);
    }
  }

  lemma NestedAfterBook(o: Queue, r: Queue, visible: Size, hi: int, id: int)
    requires Ascending(o, 0, hi) && Ascending(r, 0, hi) && Nested(o, r) && OnlyOwn(o, id) && OnlyOwn(r, id)
    ensures Nested(Reconcile(Optimistic, o, visible), Reconcile(ProRata, r, visible))
  {
    var o', r' := Reconcile(Optimistic, o, visible), Reconcile(ProRata, r, visible);
    forall j
      ensures Remaining(o', j) <= Remaining(r', j)
      ensures HasOwn(o', j) ==> HasOwn(r', j) && VolumeAhead(o', j) <= VolumeAhead(r', j)
      ensures RealSize(o') == RealSize(r')
    {
      ReconcileLaw(Optimistic, o, visible, 0, hi, j);
      ReconcileLaw(ProRata, r, visible, 0, hi, j);
      assert Remaining(o, j) <= Remaining(r, j);
      if HasOwn(o', j) {
        assert j == id;
        OnlyOwnKept(o, o', Optimistic, visible, hi, id);
        OnlyOwnKept(r, r', ProRata, visible, hi, id);
        AloneAhead(o, id);
        AloneAhead(r, id);
        AloneAhead(o', id);
        AloneAhead(r', id);
      }
    }
  }

  lemma OnlyOwnKept(q: Queue, q': Queue, bound: Bound, visible: Size, hi: int, id: int)
    requires Ascending(q, 0, hi) && OnlyOwn(q, id) && bound != Exact && q' == Reconcile(bound, q, visible)
    ensures OnlyOwn(q', id)
  {
    forall j | HasOwn(q', j) ensures j == id { ReconcileLaw(bound, q, visible, 0, hi, j); }
  }

  // ---------- the chain over runs ----------

  lemma {:induction false} PlacementsPrefix(es: seq<Event>)
    requires es != []
    ensures Placements(es[..|es| - 1]) <= Placements(es)
  {}

  /** Two orders listed at one price were placed there twice; a price listed was quoted. */
  lemma LevelsAreSingle(coin: Coin, bound: Bound, es: seq<Event>, k: Key)
    requires QuotesOnce(es)
    ensures var st := Run(Init(coin, bound), es).0;
      k in st.levels ==>
        (exists n :: 0 <= n < |Placements(es)| && Placements(es)[n].0 == k) &&
        exists id :: HasOwn(st.levels[k].queue, id) && OnlyOwn(st.levels[k].queue, id)
  {
    var st := Run(Init(coin, bound), es).0;
    RunInvariant(coin, bound, es);
    if k in st.levels {
      assert LevelOk(bound, st.levels[k], st.nextId);
      var id := QuotedHasOwn(st.levels[k].queue);
      assert Lists(st.levels, k, id) && Registered(st.registry, k, id);
      OrderAccount(coin, bound, es, id);
      assert Placements(es)[id - 1].0 == k;
      forall j | HasOwn(st.levels[k].queue, j) ensures j == id {
        assert Lists(st.levels, k, j) && Registered(st.registry, k, j);
        OrderAccount(coin, bound, es, j);
      }
    }
  }

  ghost predicate AllNested(o: SimState, r: SimState) {
    && o.coin == r.coin && o.view == r.view && o.nextId == r.nextId
    && forall k :: k in o.levels ==> k in r.levels && Nested(o.levels[k].queue, r.levels[k].queue)
  }

  /** At every shared level the two simulators hold at most one, and the same, order. */
  ghost predicate SharedSingles(o: SimState, r: SimState) {
    forall k :: k in o.levels && k in r.levels ==>
      exists id :: OnlyOwn(o.levels[k].queue, id) && OnlyOwn(r.levels[k].queue, id)
  }

  lemma PrintKeepsNested(o: SimState, r: SimState, trade: Trade)
    requires Inv(o) && Inv(r) && AllNested(o, r) && SharedSingles(o, r) && o.bound != Exact && r.bound != Exact
    ensures AllNested(OnTrade(o, trade).0, OnTrade(r, trade).0)
  {
    var o', r' := OnTrade(o, trade).0, OnTrade(r, trade).0;
    OnTradeLaw(o, trade);
    OnTradeLaw(r, trade);
    assert Below(o, r);
    PrintKeepsBelow(o, r, trade);
    forall k | k in o'.levels ensures k in r'.levels && Nested(o'.levels[k].queue, r'.levels[k].queue) {
      assert k in HitBy(o, trade) <==> k in HitBy(r, trade);
      assert LevelOk(o.bound, o.levels[k], o.nextId) && LevelOk(r.bound, r.levels[k], r.nextId);
      if k in HitBy(o, trade) {
        var id :| OnlyOwn(o.levels[k].queue, id) && OnlyOwn(r.levels[k].queue, id);
        NestedAfterPrint(o.levels[k], r.levels[k], PrintOn(k, trade), o.nextId, id);
      }
    }
  }

  lemma BookKeepsNested(o: SimState, r: SimState, view: BookView, batch: Option<BlockDiffBatch>)
    requires Inv(o) && Inv(r) && AllNested(o, r) && SharedSingles(o, r) && o.bound == Optimistic && r.bound == ProRata
    ensures AllNested(OnBook(o, view, batch), OnBook(r, view, batch))
  {
    OnBookLaw(o, view, batch);
    OnBookLaw(r, view, batch);
    forall k | k in o.levels
      ensures Nested(OnBook(o, view, batch).levels[k].queue, OnBook(r, view, batch).levels[k].queue)
    {
      assert LevelOk(o.bound, o.levels[k], o.nextId) && LevelOk(r.bound, r.levels[k], r.nextId);
      var id :| OnlyOwn(o.levels[k].queue, id) && OnlyOwn(r.levels[k].queue, id);
      NestedAfterBook(o.levels[k].queue, r.levels[k].queue, VisibleIn(view, k), o.nextId, id);
    }
  }

  lemma SinglesShared(coin: Coin, es: seq<Event>)
    requires QuotesOnce(es) && AllNested(Run(Init(coin, Optimistic), es).0, Run(Init(coin, ProRata), es).0)
    ensures SharedSingles(Run(Init(coin, Optimistic), es).0, Run(Init(coin, ProRata), es).0)
  {
    var o, r := Run(Init(coin, Optimistic), es).0, Run(Init(coin, ProRata), es).0;
    forall k | k in o.levels && k in r.levels
      ensures exists id :: OnlyOwn(o.levels[k].queue, id) && OnlyOwn(r.levels[k].queue, id)
    {
      LevelsAreSingle(coin, Optimistic, es, k);
      LevelsAreSingle(coin, ProRata, es, k);
      var id :| HasOwn(o.levels[k].queue, id) && OnlyOwn(o.levels[k].queue, id);
      assert Nested(o.levels[k].queue, r.levels[k].queue);
      assert HasOwn(r.levels[k].queue, id);
      assert OnlyOwn(r.levels[k].queue, id);
    }
  }

  /** A level with one order disappears with it, so a cancel leaves the shared levels as they were. */
  lemma CancelKeepsNested(o: SimState, r: SimState, id: int, stale: bool)
    requires Inv(o) && Inv(r) && AllNested(o, r) && SharedSingles(o, r)
    ensures AllNested(Cancel(o, id, stale), Cancel(r, id, stale))
  {
    var o', r' := Cancel(o, id, stale), Cancel(r, id, stale);
    assert Below(o, r);
    RegisteredBelow(o, r, id);
    if id in r.registry {
      var key := r.registry[id];
      OpenSizeAt(r, id);
      if key in o.levels {
        var only :| OnlyOwn(o.levels[key].queue, only) && OnlyOwn(r.levels[key].queue, only);
        assert only == id;
        assert LevelOk(o.bound, o.levels[key], o.nextId);
        var j := QuotedHasOwn(o.levels[key].queue);
        assert Lists(o.levels, key, id);
        assert Registered(o.registry, key, id);
        if Quoted(WithoutOwn(o.levels[key].queue, id)) {
          var i := QuotedHasOwn(WithoutOwn(o.levels[key].queue, id));
          WithoutOwnLaw(o.levels[key].queue, id, 0, o.nextId, i);
          assert false;
        }
      }
      assert key !in o'.levels;
    }
  }

  /** Quoting each price once, every cancel pulls the newest quote at its price. */
  lemma {:induction false} QuotesOnceIsEnough(coin: Coin, es: seq<Event>)
    requires QuotesOnce(es)
    ensures CancelsNewest(coin, es)
  {
    if es != [] {
      var n := |es| - 1;
      PlacementsPrefix(es);
      QuotesOnceIsEnough(coin, es[..n]);
      var p := Run(Init(coin, Pessimistic), es[..n]).0;
      if es[n].CancelOrder? && es[n].id in p.registry {
        var id := es[n].id;
        OrderAccount(coin, Pessimistic, es[..n], id);
        forall j | j in p.registry && p.registry[j] == p.registry[id] ensures j <= id {
          OrderAccount(coin, Pessimistic, es[..n], j);
        }
      }
    }
  }

  lemma {:induction false} RunsStayNested(coin: Coin, es: seq<Event>)
    requires PlacesAfterBooks(es) && QuotesOnce(es)
    ensures AllNested(Run(Init(coin, Optimistic), es).0, Run(Init(coin, ProRata), es).0)
  {
    if es != [] {
      var n := |es| - 1;
      PlacementsPrefix(es);
      RunsStayNested(coin, es[..n]);
      RunInvariant(coin, Optimistic, es[..n]);
      RunInvariant(coin, ProRata, es[..n]);
      SinglesShared(coin, es[..n]);
      var o, r := Run(Init(coin, Optimistic), es[..n]).0, Run(Init(coin, ProRata), es[..n]).0;
      match es[n]
      case PlaceOrder(key, sz) =>
        LevelsAreSingle(coin, Optimistic, es[..n], key);
        LevelsAreSingle(coin, ProRata, es[..n], key);
        assert Placements(es)[|Placements(es)| - 1].0 == key;
        assert key !in o.levels && key !in r.levels;
      case CancelOrder(id, stale) => CancelKeepsNested(o, r, id, stale);
      case TradePrint(trade) => PrintKeepsNested(o, r, trade);
      case BookUpdate(view, batch) => BookKeepsNested(o, r, view, batch);
    }
  }

  lemma NestedEdges(o: SimState, r: SimState)
    requires Inv(o) && Inv(r) && AllNested(o, r)
    ensures EdgesBelow(o, r)
  {
    hide LevelBelow, VolumeAhead;
    forall k | k in o.levels ensures EdgeBelow(o.levels[k].queue, r.levels[k].queue) {
      assert Nested(o.levels[k].queue, r.levels[k].queue);
      assert LevelOk(o.bound, o.levels[k], o.nextId);
      BelowEdges(o.levels[k].queue, r.levels[k].queue, 0, o.nextId);
    }
  }

  lemma BelowEdges(x: Queue, p: Queue, lo: int, hi: int)
    requires Ascending(x, lo, hi) && LevelBelow(x, p)
    ensures EdgeBelow(x, p)
  {
    forall id ensures OrderBelow(x, p, id) {
      AscendingBounds(x, lo, hi, id);
    }
  }

  /** Quoting each price once makes every book update and cancel safe between OPTIMISTIC and PRORATA. */
  lemma {:induction false} QuotesOnceIsSafe(coin: Coin, es: seq<Event>)
    requires PlacesAfterBooks(es) && QuotesOnce(es)
    ensures SafeSteps(coin, Optimistic, ProRata, es)
  {
    hide Safe, EdgesBelow, AllNested, Run, Inv;
    if es != [] {
      var n := |es| - 1;
      PlacementsPrefix(es);
      QuotesOnceIsSafe(coin, es[..n]);
      SafeRunsKeepEdges(coin, Optimistic, ProRata, es[..n]);
      RunsStayNested(coin, es);
      RunInvariant(coin, Optimistic, es);
      RunInvariant(coin, ProRata, es);
      NestedEdges(Run(Init(coin, Optimistic), es).0, Run(Init(coin, ProRata), es).0);
      assert es[..n] + [es[n]] == es;
      EventKeepsEdges(coin, Optimistic, ProRata, es[..n], es[n]);
    }
  }

  lemma QueueAheadIsReal(st: SimState, id: int)
    requires Inv(st) && st.bound != Exact && id in st.registry
    ensures st.registry[id] in st.levels
    ensures QueueAhead(st, id) == Some(RealBefore(st.levels[st.registry[id]].queue, id))
  {
    OpenSizeAt(st, id);
    assert LevelOk(st.bound, st.levels[st.registry[id]], st.nextId);
    RealAheadFresh(st.levels[st.registry[id]].queue, id);
  }

  ghost predicate AheadNoMore(x: SimState, p: SimState, id: int) {
    QueueAhead(x, id).Some? && QueueAhead(p, id).Some? && QueueAhead(x, id).value <= QueueAhead(p, id).value
  }

  /** One price, one order: the bracket orders the real queue-ahead itself. */
  lemma AheadOrdered(coin: Coin, bx: Bound, bp: Bound, es: seq<Event>, id: int)
    requires bx != Exact && bp != Exact && QuotesOnce(es)
    requires var x, p := Run(Init(coin, bx), es).0, Run(Init(coin, bp), es).0;
      Below(x, p) && id in x.registry && id in p.registry
    ensures AheadNoMore(Run(Init(coin, bx), es).0, Run(Init(coin, bp), es).0, id)
  {
    var x, p := Run(Init(coin, bx), es).0, Run(Init(coin, bp), es).0;
    RunInvariant(coin, bx, es);
    RunInvariant(coin, bp, es);
    QueueAheadIsReal(x, id);
    QueueAheadIsReal(p, id);
    OpenSizeAt(x, id);
    OpenSizeAt(p, id);
    OrderAccount(coin, bx, es, id);
    OrderAccount(coin, bp, es, id);
    var k := x.registry[id];
    assert LevelBelow(x.levels[k].queue, p.levels[k].queue);
    LevelsAreSingle(coin, bx, es, k);
    LevelsAreSingle(coin, bp, es, k);
    AloneAhead(x.levels[k].queue, id);
    AloneAhead(p.levels[k].queue, id);
  }

  ghost function StateOf(coin: Coin, bound: Bound, es: seq<Event>): SimState {
    Run(Init(coin, bound), es).0
  }

  ghost function FilledIn(coin: Coin, bound: Bound, es: seq<Event>, id: int): Size {
    FilledSize(Run(Init(coin, bound), es).1, id)
  }

  lemma {:induction false} PrefixesQuoteOnce(es: seq<Event>, n: nat)
    requires n <= |es| && QuotesOnce(es) && PlacesAfterBooks(es)
    ensures QuotesOnce(es[..n]) && PlacesAfterBooks(es[..n])
  {
    if n == |es| {
      assert es[..n] == es;
    } else {
      var m := |es| - 1;
      PlacementsPrefix(es);
      assert es[..m][..n] == es[..n];
      PrefixesQuoteOnce(es[..m], n);
    }
  }

  lemma BelowIsLessLeft(coin: Coin, bx: Bound, bp: Bound, es: seq<Event>, id: int)
    requires forall n :: 0 <= n <= |es| ==> Below(Run(Init(coin, bx), es[..n]).0, Run(Init(coin, bp), es[..n]).0)
    ensures forall n :: 0 <= n <= |es| ==>
      NoMoreLeft(Run(Init(coin, bx), es[..n]).0, Run(Init(coin, bp), es[..n]).0, id)
  {
    forall n | 0 <= n <= |es| ensures NoMoreLeft(Run(Init(coin, bx), es[..n]).0, Run(Init(coin, bp), es[..n]).0, id) {
      RunInvariant(coin, bx, es[..n]);
      RunInvariant(coin, bp, es[..n]);
      RegisteredBelow(Run(Init(coin, bx), es[..n]).0, Run(Init(coin, bp), es[..n]).0, id);
    }
  }

  /**
   * Quoting each price at most once, cancels and all: an order's cumulative fill is greatest under OPTIMISTIC,
   * then PRORATA, then PESSIMISTIC, and while it is open in all three its queue-ahead is ordered the other way.
   */
  lemma FullChain(coin: Coin, es: seq<Event>, id: int)
    requires PlacesAfterBooks(es) && QuotesOnce(es)
    ensures FilledIn(coin, Pessimistic, es, id) <= FilledIn(coin, ProRata, es, id) <= FilledIn(coin, Optimistic, es, id)
    ensures id in StateOf(coin, Optimistic, es).registry ==>
      AheadNoMore(StateOf(coin, Optimistic, es), StateOf(coin, ProRata, es), id) &&
      AheadNoMore(StateOf(coin, ProRata, es), StateOf(coin, Pessimistic, es), id)
  {
    forall n | 0 <= n <= |es|
      ensures Below(Run(Init(coin, ProRata), es[..n]).0, Run(Init(coin, Pessimistic), es[..n]).0)
      ensures Below(Run(Init(coin, Optimistic), es[..n]).0, Run(Init(coin, ProRata), es[..n]).0)
    {
      PrefixesQuoteOnce(es, n);
      QuotesOnceIsEnough(coin, es[..n]);
      NewestStayBelow(coin, ProRata, es[..n]);
      RunsStayNested(coin, es[..n]);
    }
    assert es[..|es|] == es;
    BelowIsLessLeft(coin, Optimistic, ProRata, es, id);
    BelowIsLessLeft(coin, ProRata, Pessimistic, es, id);
    LessLeftMoreFilled(coin, Optimistic, ProRata, es, id);
    LessLeftMoreFilled(coin, ProRata, Pessimistic, es, id);
    if id in StateOf(coin, Optimistic, es).registry {
      RunInvariant(coin, Optimistic, es);
      RunInvariant(coin, ProRata, es);
      RunInvariant(coin, Pessimistic, es);
      RegisteredBelow(StateOf(coin, Optimistic, es), StateOf(coin, ProRata, es), id);
      RegisteredBelow(StateOf(coin, ProRata, es), StateOf(coin, Pessimistic, es), id);
      AheadOrdered(coin, Optimistic, ProRata, es, id);
      AheadOrdered(coin, ProRata, Pessimistic, es, id);
    }
  }
}
