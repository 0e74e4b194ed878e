/**
 * Two aggregated simulators level by level, with every order measured at its back edge: all volume up to and
 * including it. Prints and places keep the back edges in order; a cancel or a book update does so exactly when it is
 * safe, and one print tells when it was not.
 */
module Edges {
  import opened Schemas
  import opened Fifo
  import opened FifoLaws
  import opened ReconcileLaws
  import opened QueueState
  import opened QueueInvariant
  import opened Bracket

  // ---------- back edges on one level ----------

  /** What must trade at this price before order `id` is filled in full. */
  function BackEdge(q: Queue, id: int): Size {
    VolumeAhead(q, id) + Remaining(q, id)
  }

  /** Each order in `x` is also in `p`, with no more left and, while anything is left, no later a back edge. */
  ghost predicate EdgeBelow(x: Queue, p: Queue) {
    forall id :: OrderBelow(x, p, id)
  }

  ghost predicate OrderBelow(x: Queue, p: Queue, id: int) {
    && Remaining(x, id) <= Remaining(p, id)
    && (HasOwn(x, id) ==> HasOwn(p, id))
    && (Remaining(x, id) > 0.0 ==> BackEdge(x, id) <= BackEdge(p, id))
  }

  /** A print at the price moves every back edge up by its size, and what passes the front is filled. */
  lemma EdgeAfterPrint(s: LevelState, sz: Size, lo: int, hi: int, id: int)
    requires Ascending(s.queue, lo, hi)
    ensures var after := AfterPrint(false, s, At(sz)).queue;
      Remaining(after, id) == Min(Remaining(s.queue, id), Max(0.0, BackEdge(s.queue, id) - sz)) &&
      (HasOwn(after, id) <==> HasOwn(s.queue, id) && Remaining(after, id) > 0.0) &&
      (Remaining(after, id) > 0.0 ==> BackEdge(after, id) == BackEdge(s.queue, id) - sz)
  {
    hide AfterPrint;
    OrderAfterPrint(s, sz, lo, hi, id);
    AscendingBounds(s.queue, lo, hi, id);
  }

  lemma EdgePrint(x: LevelState, p: LevelState, pr: Print, lo: int, hi: int)
    requires Ascending(x.queue, lo, hi) && Ascending(p.queue, lo, hi) && EdgeBelow(x.queue, p.queue)
    ensures EdgeBelow(AfterPrint(false, x, pr).queue, AfterPrint(false, p, pr).queue)
  {
    hide AfterPrint, BackEdge;
    forall id ensures OrderBelow(AfterPrint(false, x, pr).queue, AfterPrint(false, p, pr).queue, id) {
      assert OrderBelow(x.queue, p.queue, id);
      AscendingBounds(p.queue, lo, hi, id);
      match pr
      case At(sz) =>
        EdgeAfterPrint(x, sz, lo, hi, id);
        EdgeAfterPrint(p, sz, lo, hi, id);
      case Through =>
        OrderAfterThrough(x, lo, hi, id);
        OrderAfterThrough(p, lo, hi, id);
    }
  }

  /** Own volume ahead depends on the orders' sizes alone. */
  lemma SameOwnAhead(q: Queue, r: Queue, lo: int, hi: int, id: int)
    requires Ascending(q, lo, hi) && Ascending(r, lo, hi) && HasOwn(q, id) && HasOwn(r, id)
    requires forall j :: Remaining(q, j) == Remaining(r, j)
    ensures OwnAhead(q, id) == OwnAhead(r, id)
  {
    OwnAheadBelow(q, r, lo, hi, id);
    OwnAheadBelow(r, q, lo, hi, id);
  }

  /** A book update moves an order's back edge by what it does to the real volume ahead of it. */
  lemma EdgeAfterBook(bound: Bound, q: Queue, visible: Size, lo: int, hi: int, id: int)
    requires bound != Exact && Ascending(q, lo, hi) && HasOwn(q, id)
    ensures var r := Reconcile(bound, q, visible);
      BackEdge(r, id) - RealBefore(r, id) == BackEdge(q, id) - RealBefore(q, id) == OwnAhead(q, id) + Remaining(q, id)
  {
    hide Reconcile;
    var r := Reconcile(bound, q, visible);
    forall j ensures Remaining(q, j) == Remaining(r, j) { ReconcileLaw(bound, q, visible, lo, hi, j); }
    ReconcileLaw(bound, q, visible, lo, hi, id);
    SameOwnAhead(q, r, lo, hi, id);
    AheadSplits(q, id);
    AheadSplits(r, id);
  }

  lemma EdgeBook(bound: Bound, x: Queue, p: Queue, visible: Size, lo: int, hi: int)
    requires bound == Optimistic || bound == ProRata
    requires Ascending(x, lo, hi) && Ascending(p, lo, hi) && EdgeBelow(x, p)
    ensures EdgeBelow(Reconcile(bound, x, visible), Reconcile(Pessimistic, p, visible))
  {
    hide Reconcile, BackEdge;
    forall j ensures Remaining(x, j) <= Remaining(p, j) { assert OrderBelow(x, p, j); }
    forall id ensures OrderBelow(Reconcile(bound, x, visible), Reconcile(Pessimistic, p, visible), id) {
      assert OrderBelow(x, p, id);
      ReconcileLaw(bound, x, visible, lo, hi, id);
      ReconcileLaw(Pessimistic, p, visible, lo, hi, id);
      AscendingBounds(x, lo, hi, id);
      if Remaining(x, id) > 0.0 {
        EdgeAfterBook(bound, x, visible, lo, hi, id);
        EdgeAfterBook(Pessimistic, p, visible, lo, hi, id);
        OwnAheadBelow(x, p, lo, hi, id);
      }
    }
  }

  lemma EdgeJoin(x: Queue, p: Queue, id: int, sz: Size)
    requires 0 < id && Ascending(x, 0, id) && Ascending(p, 0, id)
    requires EdgeBelow(x, p) && RealSize(x) == RealSize(p)
    ensures EdgeBelow(x + [Own(id, sz)], p + [Own(id, sz)])
  {
    hide BackEdge;
    var x', p' := x + [Own(id, sz)], p + [Own(id, sz)];
    forall j ensures OrderBelow(x', p', j) {
      assert OrderBelow(x, p, j);
      EdgeAfterJoin(x, id, sz, j);
      EdgeAfterJoin(p, id, sz, j);
      AscendingBounds(x, 0, id, j);
      if j == id { JoinedEdges(x, p, id, sz); }
    }
  }

  lemma EdgeAfterJoin(q: Queue, id: int, sz: Size, j: int)
    requires 0 < id && Ascending(q, 0, id)
    ensures var r := q + [Own(id, sz)];
      && Remaining(r, j) == (if j == id then sz else Remaining(q, j)) && (HasOwn(r, j) <==> j == id || HasOwn(q, j))
      && (j != id && HasOwn(q, j) ==> BackEdge(r, j) == BackEdge(q, j))
  {
    AppendLaw(q, Own(id, sz), 0, id, j);
    AscendingBounds(q, 0, id, j);
  }

  lemma JoinedEdges(x: Queue, p: Queue, id: int, sz: Size)
    requires 0 < id && Ascending(x, 0, id) && Ascending(p, 0, id)
    requires EdgeBelow(x, p) && RealSize(x) == RealSize(p)
    ensures BackEdge(x + [Own(id, sz)], id) <= BackEdge(p + [Own(id, sz)], id)
  {
    var x', p' := x + [Own(id, sz)], p + [Own(id, sz)];
    forall j ensures Remaining(x', j) <= Remaining(p', j) {
      assert OrderBelow(x, p, j);
      EdgeAfterJoin(x, id, sz, j);
      EdgeAfterJoin(p, id, sz, j);
    }
    AppendLaw(x, Own(id, sz), 0, id, id);
    AppendLaw(p, Own(id, sz), 0, id, id);
    OwnAheadBelow(x', p', 0, id + 1, id);
    AheadSplits(x', id);
    AheadSplits(p', id);
  }

  // ---------- pulling an order ----------

  /** The back edges behind order `gone` are still in order once its remaining size is taken off each side. */
  ghost predicate PullSafe(x: Queue, p: Queue, gone: int) {
    forall id :: gone < id && Remaining(x, id) > 0.0 ==> EdgeStays(x, p, gone, id)
  }

  ghost predicate EdgeStays(x: Queue, p: Queue, gone: int, id: int) {
    BackEdge(x, id) - Remaining(x, gone) <= BackEdge(p, id) - Remaining(p, gone)
  }

  lemma EdgeAfterPull(q: Queue, gone: int, lo: int, hi: int, id: int)
    requires Ascending(q, lo, hi) && id != gone
    ensures var r := WithoutOwn(q, gone);
      Remaining(r, id) == Remaining(q, id) && (HasOwn(r, id) <==> HasOwn(q, id)) &&
      (HasOwn(q, id) ==> BackEdge(r, id) == BackEdge(q, id) - if gone < id then Remaining(q, gone) else 0.0)
  {
    WithoutOwnLaw(q, gone, lo, hi, id);
    if HasOwn(q, id) { PullLaw(q, gone, lo, hi, id); }
  }

  /** Pulling an order keeps one level below another exactly when it is safe. */
  lemma PullKeepsEdgesIff(x: Queue, p: Queue, gone: int, lo: int, hi: int)
    requires Ascending(x, lo, hi) && Ascending(p, lo, hi) && EdgeBelow(x, p)
    ensures EdgeBelow(WithoutOwn(x, gone), WithoutOwn(p, gone)) <==> PullSafe(x, p, gone)
  {
    hide WithoutOwn, BackEdge;
    var x', p' := WithoutOwn(x, gone), WithoutOwn(p, gone);
    WithoutOwnLaw(x, gone, lo, hi, gone);
    forall id ensures OrderBelow(x', p', id) <==> (gone < id && Remaining(x, id) > 0.0 ==> EdgeStays(x, p, gone, id)) {
      assert OrderBelow(x, p, id);
      WithoutOwnLaw(p, gone, lo, hi, gone);
      AscendingBounds(x, lo, hi, id);
      if id != gone {
        EdgeAfterPull(x, gone, lo, hi, id);
        EdgeAfterPull(p, gone, lo, hi, id);
      }
    }
    if EdgeBelow(x', p') {
      forall id | gone < id && Remaining(x, id) > 0.0
        ensures EdgeStays(x, p, gone, id)
      {
        assert OrderBelow(x', p', id);
      }
    }
  }

  // ---------- two simulators on one script ----------

  ghost predicate EdgesBelow(x: SimState, p: SimState) {
    && x.coin == p.coin && x.view == p.view && x.nextId == p.nextId
    && forall k :: k in x.levels ==> k in p.levels && EdgeBelow(x.levels[k].queue, p.levels[k].queue)
  }

  lemma PrintKeepsEdges(x: SimState, p: SimState, trade: Trade)
    requires Inv(x) && Inv(p) && EdgesBelow(x, p) && x.bound != Exact && p.bound != Exact
    ensures EdgesBelow(OnTrade(x, trade).0, OnTrade(p, trade).0)
  {
    hide EdgeBelow, AfterPrint, OnTrade;
    var x', p' := OnTrade(x, trade).0, OnTrade(p, trade).0;
    OnTradeLaw(x, trade);
    OnTradeLaw(p, trade);
    forall k | k in x'.levels ensures k in p'.levels && EdgeBelow(x'.levels[k].queue, p'.levels[k].queue) {
      assert k in HitBy(x, trade) ==> k in HitBy(p, trade);
      assert k in HitBy(p, trade) && k in x.levels ==> k in HitBy(x, trade);
      assert LevelOk(x.bound, x.levels[k], x.nextId) && LevelOk(p.bound, p.levels[k], p.nextId);
      if k in HitBy(x, trade) {
        EdgePrint(x.levels[k], p.levels[k], PrintOn(k, trade), 0, x.nextId);
        QuotedBelow(LevelAfter(x, k, trade).queue, LevelAfter(p, k, trade).queue);
      }
    }
  }

  lemma QuotedBelow(x: Queue, p: Queue)
    requires EdgeBelow(x, p) && Quoted(x)
    ensures Quoted(p)
  {
    var id := QuotedHasOwn(x);
    assert OrderBelow(x, p, id);
    HasOwnQuoted(p, id);
  }

  lemma BookKeepsEdges(x: SimState, p: SimState, view: BookView, batch: Option<BlockDiffBatch>)
    requires Inv(x) && Inv(p) && EdgesBelow(x, p) && (x.bound == Optimistic || x.bound == ProRata) &&
      p.bound == Pessimistic
    ensures EdgesBelow(OnBook(x, view, batch), OnBook(p, view, batch))
  {
    hide EdgeBelow, Reconcile;
    OnBookLaw(x, view, batch);
    OnBookLaw(p, view, batch);
    forall k | k in x.levels
      ensures EdgeBelow(OnBook(x, view, batch).levels[k].queue, OnBook(p, view, batch).levels[k].queue)
    {
      assert LevelOk(x.bound, x.levels[k], x.nextId) && LevelOk(p.bound, p.levels[k], p.nextId);
      EdgeBook(x.bound, x.levels[k].queue, p.levels[k].queue, VisibleIn(view, k), 0, x.nextId);
    }
  }

  lemma PlaceKeepsEdges(x: SimState, p: SimState, key: Key, sz: Size)
    requires Inv(x) && Inv(p) && EdgesBelow(x, p) && x.bound != Exact && p.bound != Exact && MatchesView(x) &&
      MatchesView(p)
    ensures EdgesBelow(Place(x, key, sz), Place(p, key, sz))
  {
    var qx, qp := Joined(x, key).queue, Joined(p, key).queue;
    SeedLaw(x.bound, x.view, key, x.nextId, 0);
    SeedLaw(p.bound, p.view, key, p.nextId, 0);
    assert key in x.levels ==> LevelOk(x.bound, x.levels[key], x.nextId);
    assert key in p.levels ==> LevelOk(p.bound, p.levels[key], p.nextId);
    forall id ensures OrderBelow(qx, qp, id) {
      SeedLaw(x.bound, x.view, key, x.nextId, id);
      AscendingBounds(qx, 0, x.nextId, id);
      if key in x.levels {
        assert EdgeBelow(x.levels[key].queue, p.levels[key].queue);
      }
    }
    EdgeJoin(qx, qp, x.nextId, sz);
  }

  /** An order open in the lower run is open at the same price in the upper one, with no less left. */
  lemma RegisteredEdges(x: SimState, p: SimState, id: int)
    requires Inv(x) && Inv(p) && EdgesBelow(x, p)
    ensures id in x.registry ==> id in p.registry && p.registry[id] == x.registry[id]
    ensures NoMoreLeft(x, p, id)
  {
    if id in x.registry {
      OpenSizeAt(x, id);
      var k := x.registry[id];
      assert EdgeBelow(x.levels[k].queue, p.levels[k].queue);
      assert OrderBelow(x.levels[k].queue, p.levels[k].queue, id);
      assert Lists(p.levels, k, id);
      assert Registered(p.registry, k, id);
    }
  }

  // ---------- cancels ----------

  /** The cancel of order `id` leaves every back edge behind it, at its price, in order. */
  ghost predicate CancelSafe(x: SimState, p: SimState, id: int) {
    id in p.registry && p.registry[id] in x.levels && p.registry[id] in p.levels ==>
      PullSafe(x.levels[p.registry[id]].queue, p.levels[p.registry[id]].queue, id)
  }

  lemma NothingBehind(x: Queue, p: Queue, gone: int, lo: int, hi: int)
    requires Ascending(x, lo, hi) && !Quoted(WithoutOwn(x, gone))
    ensures PullSafe(x, p, gone)
  {
    forall id ensures gone < id ==> Remaining(x, id) <= 0.0 {
      AscendingBounds(x, lo, hi, id);
      WithoutOwnLaw(x, gone, lo, hi, id);
      if HasOwn(WithoutOwn(x, gone), id) { HasOwnQuoted(WithoutOwn(x, gone), id); }
    }
  }

  ghost predicate LevelEdges(x: SimState, p: SimState, k: Key) {
    k in x.levels ==> k in p.levels && EdgeBelow(x.levels[k].queue, p.levels[k].queue)
  }

  /** At the level a cancel touches the edges stay in order exactly when it is safe. */
  lemma CancelAtIff(x: SimState, p: SimState, id: int, stale: bool)
    requires Inv(x) && Inv(p) && EdgesBelow(x, p) && id in p.registry
    ensures LevelEdges(Cancel(x, id, stale), Cancel(p, id, stale), p.registry[id]) <==> CancelSafe(x, p, id)
  {
    hide EdgeBelow, PullSafe, WithoutOwn, Cancel, Quoted;
    var key := p.registry[id];
    RegisteredEdges(x, p, id);
    if key in x.levels {
      CancelAt(x, id, stale, key);
      CancelAt(p, id, stale, key);
      var qx, qp := x.levels[key].queue, p.levels[key].queue;
      assert LevelOk(x.bound, x.levels[key], x.nextId) && LevelOk(p.bound, p.levels[key], p.nextId);
      PullKeepsEdgesIff(qx, qp, id, 0, x.nextId);
      if !Quoted(WithoutOwn(qx, id)) {
        NothingBehind(qx, qp, id, 0, x.nextId);
      } else if EdgeBelow(WithoutOwn(qx, id), WithoutOwn(qp, id)) {
        QuotedBelow(WithoutOwn(qx, id), WithoutOwn(qp, id));
      }
    } else {
      CancelLevels(x, id, stale);
    }
  }

  /** Two simulators stay in order over a cancel exactly when it is safe. */
  lemma CancelKeepsEdgesIff(x: SimState, p: SimState, id: int, stale: bool)
    requires Inv(x) && Inv(p) && EdgesBelow(x, p)
    ensures EdgesBelow(Cancel(x, id, stale), Cancel(p, id, stale)) <==> CancelSafe(x, p, id)
  {
    hide EdgeBelow, PullSafe, WithoutOwn, Cancel, Quoted, CancelSafe;
    var x', p' := Cancel(x, id, stale), Cancel(p, id, stale);
    RegisteredEdges(x, p, id);
    CancelLevels(x, id, stale);
    CancelLevels(p, id, stale);
    if id in p.registry {
      var key := p.registry[id];
      CancelAtIff(x, p, id, stale);
      forall k | k != key ensures LevelEdges(x', p', k) {
        CancelElsewhere(x, id, stale, k);
        CancelElsewhere(p, id, stale, k);
      }
    } else {
      NotOpenIsSafe(x, p, id);
    }
  }

  lemma NotOpenIsSafe(x: SimState, p: SimState, id: int)
    requires id !in p.registry
    ensures CancelSafe(x, p, id)
  {}

  // ---------- book updates ----------

  /** The real volume ahead of order `id` once the level shows `visible`. */
  function AheadAfter(bound: Bound, q: Queue, visible: Size, id: int): real {
    var ahead, total := RealBefore(q, id), RealSize(q);
    if visible >= total then ahead
    else match bound
      case Pessimistic => Min(ahead, visible)
      case ProRata => Scaled(ahead, Survival(total, total - visible))
      case _ => Max(0.0, ahead - (total - visible))
  }

  lemma AheadAfterBook(bound: Bound, q: Queue, visible: Size, lo: int, hi: int, id: int)
    requires bound != Exact && Ascending(q, lo, hi) && HasOwn(q, id)
    ensures RealBefore(Reconcile(bound, q, visible), id) == AheadAfter(bound, q, visible, id)
  {
    hide Reconcile, Survival, Scaled;
    ReconcileLaw(bound, q, visible, lo, hi, id);
    AheadSplits(q, id);
    if visible < RealSize(q) && bound == ProRata {
      ProRataBefore(q, visible, lo, hi, id);
    } else if visible >= RealSize(q) {
      GrownKeepsAhead(bound, q, visible, lo, hi, id);
    }
  }

  lemma GrownKeepsAhead(bound: Bound, q: Queue, visible: Size, lo: int, hi: int, id: int)
    requires Ascending(q, lo, hi) && HasOwn(q, id) && visible >= RealSize(q)
    ensures RealBefore(Reconcile(bound, q, visible), id) == RealBefore(q, id)
  {
    if visible > RealSize(q) {
      AppendLaw(q, Real(None, visible - RealSize(q)), lo, hi, id);
      AheadSplits(q, id);
      AheadSplits(q + [Real(None, visible - RealSize(q))], id);
    }
  }

  /** At every order with something left the back edges are in order once the book's removals are taken off. */
  ghost predicate ShowSafe(bx: Bound, x: Queue, bp: Bound, p: Queue, visible: Size) {
    forall id :: Remaining(x, id) > 0.0 ==> EdgeStaysShown(bx, x, bp, p, visible, id)
  }

  ghost predicate EdgeStaysShown(bx: Bound, x: Queue, bp: Bound, p: Queue, visible: Size, id: int) {
    BackEdge(x, id) - RealBefore(x, id) + AheadAfter(bx, x, visible, id) <=
    BackEdge(p, id) - RealBefore(p, id) + AheadAfter(bp, p, visible, id)
  }

  lemma EdgeAfterShow(bound: Bound, q: Queue, visible: Size, lo: int, hi: int, id: int)
    requires bound != Exact && Ascending(q, lo, hi)
    ensures var r := Reconcile(bound, q, visible);
      && Remaining(r, id) == Remaining(q, id) && (HasOwn(r, id) <==> HasOwn(q, id))
      && (HasOwn(q, id) ==>
          BackEdge(r, id) == BackEdge(q, id) - RealBefore(q, id) + AheadAfter(bound, q, visible, id))
  {
    hide Reconcile, BackEdge, AheadAfter;
    ReconcileLaw(bound, q, visible, lo, hi, id);
    if HasOwn(q, id) {
      EdgeAfterBook(bound, q, visible, lo, hi, id);
      AheadAfterBook(bound, q, visible, lo, hi, id);
    }
  }

  /** A book update keeps one level below another exactly when it is safe. */
  lemma ShowKeepsEdgesIff(bx: Bound, x: Queue, bp: Bound, p: Queue, visible: Size, lo: int, hi: int)
    requires bx != Exact && bp != Exact && Ascending(x, lo, hi) && Ascending(p, lo, hi) && EdgeBelow(x, p)
    ensures EdgeBelow(Reconcile(bx, x, visible), Reconcile(bp, p, visible)) <==> ShowSafe(bx, x, bp, p, visible)
  {
    hide Reconcile, BackEdge, AheadAfter, RealBefore;
    var x', p' := Reconcile(bx, x, visible), Reconcile(bp, p, visible);
    forall id
      ensures OrderBelow(x', p', id) <==> (Remaining(x, id) > 0.0 ==> EdgeStaysShown(bx, x, bp, p, visible, id))
    {
      assert OrderBelow(x, p, id);
      AscendingBounds(x, lo, hi, id);
      EdgeAfterShow(bx, x, visible, lo, hi, id);
      EdgeAfterShow(bp, p, visible, lo, hi, id);
    }
    if EdgeBelow(x', p') {
      forall id | Remaining(x, id) > 0.0 ensures EdgeStaysShown(bx, x, bp, p, visible, id) {
        assert OrderBelow(x', p', id);
      }
    }
  }

  /** A book update leaves the back edges in order at every level quoted in the lower simulator. */
  ghost predicate BookSafe(x: SimState, p: SimState, view: BookView) {
    forall k :: k in x.levels && k in p.levels ==>
      ShowSafe(x.bound, x.levels[k].queue, p.bound, p.levels[k].queue, VisibleIn(view, k))
  }

  /** Two simulators stay in order over a book update exactly when it is safe. */
  lemma BookKeepsEdgesIff(x: SimState, p: SimState, view: BookView, batch: Option<BlockDiffBatch>)
    requires Inv(x) && Inv(p) && EdgesBelow(x, p) && x.bound != Exact && p.bound != Exact
    ensures EdgesBelow(OnBook(x, view, batch), OnBook(p, view, batch)) <==> BookSafe(x, p, view)
  {
    hide EdgeBelow, Reconcile, ShowSafe;
    OnBookLaw(x, view, batch);
    OnBookLaw(p, view, batch);
    forall k | k in x.levels
      ensures EdgeBelow(OnBook(x, view, batch).levels[k].queue, OnBook(p, view, batch).levels[k].queue) <==>
              ShowSafe(x.bound, x.levels[k].queue, p.bound, p.levels[k].queue, VisibleIn(view, k))
    {
      assert LevelOk(x.bound, x.levels[k], x.nextId) && LevelOk(p.bound, p.levels[k], p.nextId);
      ShowKeepsEdgesIff(x.bound, x.levels[k].queue, p.bound, p.levels[k].queue, VisibleIn(view, k), 0, x.nextId);
    }
  }

  // ---------- what an unsafe event does ----------

  /** Two back edges out of order at an order with something left: one print empties it in `p` and not in `x`. */
  lemma OnePrintBreaksIt(x: SimState, p: SimState, k: Key, id: int, trade: Trade)
    requires Inv(x) && Inv(p) && x.bound != Exact && p.bound != Exact && k in x.levels && k in p.levels
    requires HasOwn(p.levels[k].queue, id) && Remaining(x.levels[k].queue, id) > 0.0
    requires BackEdge(x.levels[k].queue, id) > BackEdge(p.levels[k].queue, id) == trade.sz
    requires trade.coin == x.coin == p.coin && trade.px == k.px && RestingSideHit(trade.side) == k.side
    ensures OpenSize(OnTrade(x, trade).0, id) > OpenSize(OnTrade(p, trade).0, id)
  {
    hide OnTrade, AfterPrint, BackEdge;
    OnTradeLaw(x, trade);
    OnTradeLaw(p, trade);
    assert LevelOk(x.bound, x.levels[k], x.nextId) && LevelOk(p.bound, p.levels[k], p.nextId);
    assert k in HitBy(x, trade) && k in HitBy(p, trade) && PrintOn(k, trade) == At(trade.sz);
    AscendingBounds(x.levels[k].queue, 0, x.nextId, id);
    EdgeAfterPrint(x.levels[k], trade.sz, 0, x.nextId, id);
    EdgeAfterPrint(p.levels[k], trade.sz, 0, p.nextId, id);
    var x', p' := OnTrade(x, trade).0, OnTrade(p, trade).0;
    HasOwnQuoted(LevelAfter(x, k, trade).queue, id);
    assert Lists(x'.levels, k, id);
    assert Registered(x'.registry, k, id);
    assert Lists(p.levels, k, id);
    assert Registered(p.registry, k, id);
    if id in p'.registry {
      assert p'.registry[id] == k;
      OpenSizeAt(p', id);
      assert p'.levels[k] == LevelAfter(p, k, trade);
    }
  }

  lemma UnsafeOrder(x: Queue, p: Queue, gone: int) returns (id: int)
    requires !PullSafe(x, p, gone)
    ensures gone < id && Remaining(x, id) > 0.0 && !EdgeStays(x, p, gone, id)
  {
    id :| gone < id && Remaining(x, id) > 0.0 && !EdgeStays(x, p, gone, id);
  }

  /** After an unsafe cancel some order's back edges are out of order, and a print of the smaller one shows it. */
  lemma UnsafeCancelBreaksIt(x: SimState, p: SimState, gone: int, stale: bool) returns (trade: Trade, id: int)
    requires Inv(x) && Inv(p) && EdgesBelow(x, p) && x.bound != Exact && p.bound != Exact && !CancelSafe(x, p, gone)
    ensures OpenSize(OnTrade(Cancel(x, gone, stale), trade).0, id) >
      OpenSize(OnTrade(Cancel(p, gone, stale), trade).0, id)
  {
    hide Cancel, OnTrade, WithoutOwn, EdgeBelow, PullSafe, Quoted, BackEdge;
    var key := p.registry[gone];
    var qx, qp := x.levels[key].queue, p.levels[key].queue;
    id := UnsafeOrder(qx, qp, gone);
    RegisteredEdges(x, p, gone);
    CancelAt(x, gone, stale, key);
    CancelAt(p, gone, stale, key);
    CancelLaw(x, gone, stale);
    CancelLaw(p, gone, stale);
    assert LevelOk(x.bound, x.levels[key], x.nextId) && LevelOk(p.bound, p.levels[key], p.nextId);
    EdgesBehind(qx, qp, gone, id, x.nextId);
    HasOwnQuoted(WithoutOwn(qx, gone), id);
    HasOwnQuoted(WithoutOwn(qp, gone), id);
    trade := Trade(x.coin, 0, key.px, BackEdge(WithoutOwn(qp, gone), id), if key.side == Bid then Ask else Bid);
    OnePrintBreaksIt(Cancel(x, gone, stale), Cancel(p, gone, stale), key, id, trade);
  }

  lemma EdgesBehind(x: Queue, p: Queue, gone: int, id: int, hi: int)
    requires Ascending(x, 0, hi) && Ascending(p, 0, hi) && EdgeBelow(x, p)
    requires gone < id && Remaining(x, id) > 0.0 && !EdgeStays(x, p, gone, id)
    ensures var x', p' := WithoutOwn(x, gone), WithoutOwn(p, gone);
      HasOwn(x', id) && HasOwn(p', id) && Remaining(x', id) > 0.0 && BackEdge(x', id) > BackEdge(p', id)
  {
    hide WithoutOwn, BackEdge;
    assert OrderBelow(x, p, id);
    AscendingBounds(x, 0, hi, id);
    EdgeAfterPull(x, gone, 0, hi, id);
    EdgeAfterPull(p, gone, 0, hi, id);
  }

  lemma UnsafeLevel(x: SimState, p: SimState, view: BookView) returns (k: Key)
    requires !BookSafe(x, p, view)
    ensures k in x.levels && k in p.levels
    ensures !ShowSafe(x.bound, x.levels[k].queue, p.bound, p.levels[k].queue, VisibleIn(view, k))
  {
    hide ShowSafe;
    k :| k in x.levels && k in p.levels &&
      !ShowSafe(x.bound, x.levels[k].queue, p.bound, p.levels[k].queue, VisibleIn(view, k));
  }

  lemma UnsafeShown(bx: Bound, x: Queue, bp: Bound, p: Queue, visible: Size) returns (id: int)
    requires !ShowSafe(bx, x, bp, p, visible)
    ensures Remaining(x, id) > 0.0 && !EdgeStaysShown(bx, x, bp, p, visible, id)
  {
    hide EdgeStaysShown;
    id :| Remaining(x, id) > 0.0 && !EdgeStaysShown(bx, x, bp, p, visible, id);
  }

  lemma EdgesShown(bx: Bound, x: Queue, bp: Bound, p: Queue, visible: Size, id: int, hi: int)
    requires bx != Exact && bp != Exact && Ascending(x, 0, hi) && Ascending(p, 0, hi) && EdgeBelow(x, p)
    requires Remaining(x, id) > 0.0 && !EdgeStaysShown(bx, x, bp, p, visible, id)
    ensures var x', p' := Reconcile(bx, x, visible), Reconcile(bp, p, visible);
      HasOwn(p', id) && Remaining(x', id) > 0.0 && BackEdge(x', id) > BackEdge(p', id)
  {
    hide Reconcile, BackEdge, AheadAfter;
    assert OrderBelow(x, p, id);
    AscendingBounds(x, 0, hi, id);
    EdgeAfterShow(bx, x, visible, 0, hi, id);
    EdgeAfterShow(bp, p, visible, 0, hi, id);
  }

  /** After an unsafe book update some order's back edges are out of order, and a print of the smaller one shows it. */
  lemma UnsafeBookBreaksIt(x: SimState, p: SimState, view: BookView, batch: Option<BlockDiffBatch>)
    returns (trade: Trade, id: int)
    requires Inv(x) && Inv(p) && EdgesBelow(x, p) && x.bound != Exact && p.bound != Exact && !BookSafe(x, p, view)
    ensures OpenSize(OnTrade(OnBook(x, view, batch), trade).0, id) >
            OpenSize(OnTrade(OnBook(p, view, batch), trade).0, id)
  {
    hide OnTrade, OnBook, Reconcile, EdgeBelow, ShowSafe, EdgeStaysShown, BackEdge, BookSafe;
    var key := UnsafeLevel(x, p, view);
    var qx, qp := x.levels[key].queue, p.levels[key].queue;
    id := UnsafeShown(x.bound, qx, p.bound, qp, VisibleIn(view, key));
    OnBookLaw(x, view, batch);
    OnBookLaw(p, view, batch);
    assert LevelOk(x.bound, x.levels[key], x.nextId) && LevelOk(p.bound, p.levels[key], p.nextId);
    EdgesShown(x.bound, qx, p.bound, qp, VisibleIn(view, key), id, x.nextId);
    var edge := BackEdge(Reconcile(p.bound, qp, VisibleIn(view, key)), id);
    trade := Trade(x.coin, 0, key.px, edge, if key.side == Bid then Ask else Bid);
    OnePrintBreaksIt(OnBook(x, view, batch), OnBook(p, view, batch), key, id, trade);
  }
}
