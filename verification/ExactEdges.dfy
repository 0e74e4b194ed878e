/**
 * The PESSIMISTIC simulator against ground truth, one step at a time: the EXACT simulator is taken with what its
 * prints consumed already off the queues, and orders are measured at their back edges.
 */
module ExactEdges {
  import opened Schemas
  import opened Fifo
  import opened FifoLaws
  import opened ReconcileLaws
  import opened LazyConsumption
  import opened OrderList
  import opened QueueState
  import opened QueueInvariant
  import opened Bracket
  import opened Priority
  import opened ExactMode
  import opened ExactRuns
  import opened BlockPrints
  import opened Edges

  // ---------- the eager twin ----------

  lemma TwinInv(st: SimState)
    requires Inv(st)
    ensures Inv(Twin(st))
  {
    var twin := Twin(st);
    forall k | k in twin.levels ensures LevelOk(twin.bound, twin.levels[k], twin.nextId) {
      assert LevelOk(st.bound, st.levels[k], st.nextId);
      EagerOrder(st.levels[k].queue, st.levels[k].consumed, 0, st.nextId);
      EagerQuoted(st.levels[k].queue, st.levels[k].consumed);
    }
    forall k, id ensures Lists(twin.levels, k, id) <==> Registered(twin.registry, k, id) {
      assert Lists(st.levels, k, id) <==> Registered(st.registry, k, id);
      if k in st.levels { EagerOrders(st.levels[k].queue, st.levels[k].consumed, id); }
    }
  }

  lemma TwinOpen(st: SimState, id: int)
    ensures OpenSize(Twin(st), id) == OpenSize(st, id)
  {
    if id in st.registry && st.registry[id] in st.levels {
      var s := st.levels[st.registry[id]];
      EagerOrders(s.queue, s.consumed, id);
    }
  }

  lemma {:induction false} EagerWithout(q: Queue, consumed: Size, id: int)
    ensures Eager(WithoutOwn(q, id), consumed) == WithoutOwn(Eager(q, consumed), id)
  {
    if q != [] {
      EagerWithout(q[1..], if q[0].Own? then consumed else consumed - Min(q[0].sz, consumed), id);
    }
  }

  lemma TwinCancel(st: SimState, id: int, stale: bool)
    ensures Cancel(Twin(st), id, stale) == Twin(Cancel(st, id, stale))
  {
    hide Eager, WithoutOwn, DropIfUnquoted;
    if id in st.registry && st.registry[id] in st.levels {
      var key := st.registry[id];
      var s := st.levels[key];
      EagerWithout(s.queue, s.consumed, id);
      TwinKeeps(st.levels, key, s.(queue := WithoutOwn(s.queue, id)));
    }
  }

  lemma {:induction false} EagerAppend(q: Queue, consumed: Size, id: int, sz: Size)
    ensures Eager(q + [Own(id, sz)], consumed) == Eager(q, consumed) + [Own(id, sz)]
  {
    if q == [] {
      assert q + [Own(id, sz)] == [Own(id, sz)];
    } else {
      assert (q + [Own(id, sz)])[1..] == q[1..] + [Own(id, sz)];
      EagerAppend(q[1..], if q[0].Own? then consumed else consumed - Min(q[0].sz, consumed), id, sz);
    }
  }

  lemma {:induction false} EagerSettled(q: Queue)
    ensures RealSize(Eager(q, 0.0)) == RealSize(q)
  {
    if q != [] { EagerSettled(q[1..]); }
  }

  lemma {:induction false} ErasedSize(q: Queue)
    requires Named(q)
    ensures RealSize(q) == SumSizes(Erased(q))
  {
    if q != [] { ErasedSize(q[1..]); }
  }

  // ---------- placing ----------

  /** Nothing of the block is consumed, and every level, tracked or yet to be, holds the size the view shows. */
  ghost predicate SettledOn(st: SimState) {
    NothingConsumed(st) && forall k :: RealSize(Joined(st, k).queue) == Visible(st.view, k)
  }

  lemma JoinedTwin(st: SimState, key: Key, sz: Size)
    requires st.bound == Exact && SettledOn(st)
    ensures Joined(st, key).consumed == 0.0
    ensures var eager := Eager(Joined(st, key).queue, 0.0);
      Twin(Place(st, key, sz)).levels ==
      Twin(st).levels[key := LevelState(eager + [Own(st.nextId, sz)], 0.0)]
  {
    hide Eager, Seed, RealSize;
    EagerAppend(Joined(st, key).queue, 0.0, st.nextId, sz);
  }

  /** The queue the new order joins in the twin is below the one it joins in `p`. */
  lemma JoinedBelow(x: SimState, p: SimState, key: Key)
    requires Inv(x) && Inv(p) && x.bound == Exact && EdgesBelow(Twin(x), p) && SettledOn(x) && p.bound == Pessimistic
    ensures var qx, qp := Eager(Joined(x, key).queue, 0.0), Joined(p, key).queue;
      EdgeBelow(qx, qp) && Ascending(qx, 0, x.nextId) && Ascending(qp, 0, x.nextId)
  {
    var q, qp := Joined(x, key).queue, Joined(p, key).queue;
    SeedLaw(x.bound, x.view, key, x.nextId, 0);
    SeedLaw(p.bound, p.view, key, p.nextId, 0);
    assert key in x.levels ==> LevelOk(x.bound, x.levels[key], x.nextId);
    assert key in p.levels ==> LevelOk(p.bound, p.levels[key], p.nextId);
    EagerOrder(q, 0.0, 0, x.nextId);
    if key in x.levels {
      assert Twin(x).levels[key].queue == Eager(q, 0.0);
    } else {
      forall id ensures OrderBelow(Eager(q, 0.0), qp, id) {
        SeedLaw(x.bound, x.view, key, x.nextId, id);
        EagerOrders(q, 0.0, id);
        AscendingBounds(Eager(q, 0.0), 0, x.nextId, id);
      }
    }
  }

  lemma PlaceKeepsTwin(x: SimState, p: SimState, key: Key, sz: Size)
    requires Inv(x) && Inv(p) && x.bound == Exact && p.bound == Pessimistic && EdgesBelow(Twin(x), p)
    requires SettledOn(x) && MatchesView(p)
    ensures EdgesBelow(Twin(Place(x, key, sz)), Place(p, key, sz))
  {
    hide EdgeBelow, Eager, RealSize, Inv, Seed;
    var qx, qp := Eager(Joined(x, key).queue, 0.0), Joined(p, key).queue;
    JoinedBelow(x, p, key);
    JoinedTwin(x, key, sz);
    EagerSettled(Joined(x, key).queue);
    SeedLaw(p.bound, p.view, key, p.nextId, 0);
    NextIdPositive(x);
    EdgeJoin(qx, qp, x.nextId, sz);
  }

  lemma NextIdPositive(st: SimState)
    requires Inv(st)
    ensures 0 < st.nextId
  {}

  // ---------- a block ----------

  /** What a block leaves of our orders on a level. */
  lemma BlockKeepsOrders(x: SimState, view: BookView, batch: Option<BlockDiffBatch>, k: Key, id: int)
    requires Inv(x) && k in x.levels
    ensures var x' := OnBook(x, view, batch);
      && k in x'.levels && Ascending(x'.levels[k].queue, 0, x.nextId)
      && (HasOwn(x'.levels[k].queue, id) <==> HasOwn(x.levels[k].queue, id))
      && Remaining(x'.levels[k].queue, id) == Remaining(x.levels[k].queue, id)
  {
    hide OnBook;
    OnBookLaw(x, view, batch);
    var x' := OnBook(x, view, batch);
    assert LevelOk(x.bound, x.levels[k], x.nextId) && LevelOk(x'.bound, x'.levels[k], x'.nextId);
    assert Lists(x.levels, k, id) <==> Registered(x.registry, k, id);
    assert Lists(x'.levels, k, id) <==> Registered(x'.registry, k, id);
    AscendingBounds(x.levels[k].queue, 0, x.nextId, id);
    AscendingBounds(x'.levels[k].queue, 0, x.nextId, id);
    assert OpenSize(x', id) == OpenSize(x, id);
  }

  /** Once `q` became `q'` and the other level shows `visible`, the back edges of order `id` are still in order. */
  ghost predicate EdgeStaysSettled(q: Queue, q': Queue, p: Queue, visible: Size, id: int) {
    OwnAhead(q, id) + Remaining(q, id) + RealBefore(q', id) <=
    OwnAhead(p, id) + Remaining(p, id) + Min(RealBefore(p, id), visible)
  }

  ghost predicate SettleSafe(q: Queue, q': Queue, p: Queue, visible: Size) {
    forall id :: Remaining(q, id) > 0.0 ==> EdgeStaysSettled(q, q', p, visible, id)
  }

  /** Our orders on a settled level. */
  lemma SettledEdge(q: Queue, q': Queue, lo: int, hi: int, id: int)
    requires Ascending(q, lo, hi) && Ascending(q', lo, hi)
    requires forall j :: Remaining(q', j) == Remaining(q, j) && (HasOwn(q', j) <==> HasOwn(q, j))
    ensures var e := Eager(q', 0.0);
      && Remaining(e, id) == Remaining(q, id) && (HasOwn(e, id) <==> HasOwn(q, id))
      && (HasOwn(q, id) ==> BackEdge(e, id) == OwnAhead(q, id) + Remaining(q, id) + RealBefore(q', id))
  {
    var e := Eager(q', 0.0);
    EagerOrders(q', 0.0, id);
    AheadSplits(e, id);
    LazyAhead(q', 0.0, id);
    RealAheadFresh(q', id);
    if HasOwn(q, id) { SameOwnAhead(q, q', lo, hi, id); }
  }

  lemma ShownEdge(p: Queue, visible: Size, lo: int, hi: int, id: int)
    requires Ascending(p, lo, hi)
    ensures var r := Reconcile(Pessimistic, p, visible);
      && Remaining(r, id) == Remaining(p, id) && (HasOwn(r, id) <==> HasOwn(p, id))
      && (HasOwn(p, id) ==>
          BackEdge(r, id) == OwnAhead(p, id) + Remaining(p, id) + Min(RealBefore(p, id), visible))
  {
    hide Reconcile;
    ReconcileLaw(Pessimistic, p, visible, lo, hi, id);
    if HasOwn(p, id) { EdgeAfterBook(Pessimistic, p, visible, lo, hi, id); }
  }

  lemma BelowHolds(x: Queue, p: Queue, id: int)
    requires EdgeBelow(x, p)
    ensures OrderBelow(x, p, id)
  {}

  /** A settled level stays below a shown one exactly when it is safe. */
  lemma SettleKeepsEdgesIff(s: LevelState, q': Queue, p: Queue, visible: Size, lo: int, hi: int)
    requires Ascending(s.queue, lo, hi) && Ascending(q', lo, hi) && Ascending(p, lo, hi)
    requires EdgeBelow(EagerState(s).queue, p)
    requires forall j :: Remaining(q', j) == Remaining(s.queue, j) && (HasOwn(q', j) <==> HasOwn(s.queue, j))
    ensures EdgeBelow(Eager(q', 0.0), Reconcile(Pessimistic, p, visible)) <==> SettleSafe(s.queue, q', p, visible)
  {
    hide Reconcile, BackEdge, Eager;
    var q := s.queue;
    var e, r := Eager(q', 0.0), Reconcile(Pessimistic, p, visible);
    forall id
      ensures OrderBelow(e, r, id) <==> (Remaining(q, id) > 0.0 ==> EdgeStaysSettled(q, q', p, visible, id))
    {
      BelowHolds(EagerState(s).queue, p, id);
      EagerOrders(q, s.consumed, id);
      AscendingBounds(q, lo, hi, id);
      SettledEdge(q, q', lo, hi, id);
      ShownEdge(p, visible, lo, hi, id);
    }
    if EdgeBelow(e, r) {
      forall id | Remaining(q, id) > 0.0 ensures EdgeStaysSettled(q, q', p, visible, id) { BelowHolds(e, r, id); }
    }
  }

  /** The block leaves the back edges in order at every level of the EXACT simulator. */
  ghost predicate BlockSafe(x: SimState, p: SimState, view: BookView, batch: Option<BlockDiffBatch>) {
    var x' := OnBook(x, view, batch);
    forall k :: k in x.levels && k in x'.levels && k in p.levels ==>
      SettleSafe(x.levels[k].queue, x'.levels[k].queue, p.levels[k].queue, VisibleIn(view, k))
  }

  lemma BlockAtIff(x: SimState, p: SimState, view: BookView, batch: Option<BlockDiffBatch>, k: Key)
    requires Inv(x) && Inv(p) && x.bound == Exact && p.bound == Pessimistic && EdgesBelow(Twin(x), p) && k in x.levels
    ensures k in OnBook(x, view, batch).levels && k in p.levels && k in OnBook(p, view, batch).levels
    ensures EdgeBelow(Eager(OnBook(x, view, batch).levels[k].queue, 0.0), OnBook(p, view, batch).levels[k].queue) <==>
            SettleSafe(x.levels[k].queue, OnBook(x, view, batch).levels[k].queue, p.levels[k].queue, VisibleIn(view, k))
  {
    hide OnBook, Reconcile, EdgeBelow, SettleSafe, Eager;
    OnBookLaw(p, view, batch);
    var q' := OnBook(x, view, batch).levels;
    BlockKeepsOrders(x, view, batch, k, 0);
    forall j
      ensures Remaining(q'[k].queue, j) == Remaining(x.levels[k].queue, j)
      ensures HasOwn(q'[k].queue, j) <==> HasOwn(x.levels[k].queue, j)
    {
      BlockKeepsOrders(x, view, batch, k, j);
    }
    assert k in Twin(x).levels && Twin(x).levels[k] == EagerState(x.levels[k]);
    assert LevelOk(x.bound, x.levels[k], x.nextId) && LevelOk(p.bound, p.levels[k], p.nextId);
    SettleKeepsEdgesIff(x.levels[k], q'[k].queue, p.levels[k].queue, VisibleIn(view, k), 0, x.nextId);
  }

  /** The two simulators stay in order over a block exactly when it is safe. */
  lemma BlockKeepsEdgesIff(x: SimState, p: SimState, view: BookView, batch: Option<BlockDiffBatch>)
    requires Inv(x) && Inv(p) && x.bound == Exact && p.bound == Pessimistic && EdgesBelow(Twin(x), p)
    requires NothingConsumed(OnBook(x, view, batch))
    ensures EdgesBelow(Twin(OnBook(x, view, batch)), OnBook(p, view, batch)) <==> BlockSafe(x, p, view, batch)
  {
    hide OnBook, EdgeBelow, SettleSafe, Eager, Inv;
    OnBookLaw(x, view, batch);
    OnBookLaw(p, view, batch);
    var x', p' := OnBook(x, view, batch), OnBook(p, view, batch);
    forall k | k in x.levels
      ensures k in x'.levels && k in p.levels && k in p'.levels
      ensures EdgeBelow(Twin(x').levels[k].queue, p'.levels[k].queue) <==>
              SettleSafe(x.levels[k].queue, x'.levels[k].queue, p.levels[k].queue, VisibleIn(view, k))
    {
      BlockAtIff(x, p, view, batch, k);
    }
  }

  // ---------- blocks that are safe ----------

  /** After the block no order still open reports more ahead of it than before. */
  ghost predicate NoneRises(x: SimState, x': SimState) {
    forall id :: NoRise(x, x', id)
  }

  ghost predicate NoRise(x: SimState, x': SimState, id: int) {
    QueueAhead(x, id).Some? && QueueAhead(x', id).Some? ==> QueueAhead(x', id).value <= QueueAhead(x, id).value
  }

  lemma NoRiseAt(s: LevelState, q': Queue, p: Queue, lo: int, hi: int, id: int)
    requires Ascending(s.queue, lo, hi) && Ascending(p, lo, hi)
    requires EdgeBelow(EagerState(s).queue, p) && Remaining(s.queue, id) > 0.0
    requires RealBefore(q', id) <= RealAhead(s.queue, s.consumed, id)
    ensures EdgeStaysSettled(s.queue, q', p, RealSize(q'), id)
  {
    hide Eager;
    var e := EagerState(s).queue;
    EagerOrder(s.queue, s.consumed, lo, hi);
    forall j ensures Remaining(e, j) <= Remaining(p, j) { BelowHolds(e, p, j); }
    BelowHolds(e, p, id);
    EagerOrders(s.queue, s.consumed, id);
    LazyAhead(s.queue, s.consumed, id);
    AscendingBounds(s.queue, lo, hi, id);
    OwnAheadBelow(e, p, lo, hi, id);
    AheadSplits(e, id);
    AheadSplits(p, id);
    AheadSplits(q', id);
  }

  /** A block that raises nobody's queue-ahead is safe, as long as the view shows the sizes its diffs lead to. */
  lemma NoRiseIsSafe(x: SimState, p: SimState, view: BookView, batch: Option<BlockDiffBatch>)
    requires Inv(x) && Inv(p) && x.bound == Exact && p.bound == Pessimistic && EdgesBelow(Twin(x), p)
    requires var x' := OnBook(x, view, batch);
      && NoneRises(x, x') && NothingConsumed(x')
      && forall k :: k in x'.levels ==> RealSize(x'.levels[k].queue) == VisibleIn(view, k)
    ensures BlockSafe(x, p, view, batch)
  {
    hide OnBook, EdgeBelow, Eager, EdgeStaysSettled;
    var x' := OnBook(x, view, batch);
    OnBookLaw(x, view, batch);
    forall k, id | k in x.levels && k in x'.levels && k in p.levels && Remaining(x.levels[k].queue, id) > 0.0
      ensures EdgeStaysSettled(x.levels[k].queue, x'.levels[k].queue, p.levels[k].queue, VisibleIn(view, k), id)
    {
      assert Twin(x).levels[k] == EagerState(x.levels[k]);
      assert LevelOk(x.bound, x.levels[k], x.nextId) && LevelOk(p.bound, p.levels[k], p.nextId);
      AscendingBounds(x.levels[k].queue, 0, x.nextId, id);
      assert Lists(x.levels, k, id);
      assert Registered(x.registry, k, id);
      assert NoRise(x, x', id);
      RealAheadFresh(x'.levels[k].queue, id);
      NoRiseAt(x.levels[k], x'.levels[k].queue, p.levels[k].queue, 0, x.nextId, id);
    }
  }

  // ---------- what an unsafe cancel or block does ----------

  lemma TwinTradeOpen(st: SimState, trade: Trade, id: int)
    requires Inv(st) && st.bound == Exact
    ensures OpenSize(OnTrade(Twin(st), trade).0, id) == OpenSize(OnTrade(st, trade).0, id)
  {
    hide OnTrade, OpenSize, Twin;
    TwinOnTrade(st, trade);
    TwinOpen(OnTrade(st, trade).0, id);
  }

  lemma UnsafePullBreaksIt(x: SimState, p: SimState, gone: int, stale: bool) returns (trade: Trade, id: int)
    requires Inv(x) && Inv(p) && x.bound == Exact && p.bound == Pessimistic && EdgesBelow(Twin(x), p)
    requires !CancelSafe(Twin(x), p, gone)
    ensures OpenSize(OnTrade(Cancel(x, gone, stale), trade).0, id) >
            OpenSize(OnTrade(Cancel(p, gone, stale), trade).0, id)
  {
    hide OnTrade, OpenSize, Cancel, CancelSafe, EdgesBelow, Inv;
    TwinInv(x);
    trade, id := UnsafeCancelBreaksIt(Twin(x), p, gone, stale);
    TwinCancel(x, gone, stale);
    CancelLaw(x, gone, stale);
    TwinTradeOpen(Cancel(x, gone, stale), trade, id);
  }

  lemma UnsafeAt(x: SimState, p: SimState, view: BookView, batch: Option<BlockDiffBatch>) returns (k: Key, id: int)
    requires !BlockSafe(x, p, view, batch)
    ensures var x' := OnBook(x, view, batch);
      && k in x.levels && k in x'.levels && k in p.levels && Remaining(x.levels[k].queue, id) > 0.0
      && !EdgeStaysSettled(x.levels[k].queue, x'.levels[k].queue, p.levels[k].queue, VisibleIn(view, k), id)
  {
    hide OnBook, EdgeStaysSettled;
    var x' := OnBook(x, view, batch);
    k :| k in x.levels && k in x'.levels && k in p.levels &&
      !SettleSafe(x.levels[k].queue, x'.levels[k].queue, p.levels[k].queue, VisibleIn(view, k));
    id := UnsafeOrderAt(x.levels[k].queue, x'.levels[k].queue, p.levels[k].queue, VisibleIn(view, k));
  }

  lemma UnsafeOrderAt(q: Queue, q': Queue, p: Queue, visible: Size) returns (id: int)
    requires !SettleSafe(q, q', p, visible)
    ensures Remaining(q, id) > 0.0 && !EdgeStaysSettled(q, q', p, visible, id)
  {
    hide EdgeStaysSettled;
    id :| Remaining(q, id) > 0.0 && !EdgeStaysSettled(q, q', p, visible, id);
  }

  /** The back edges of the order the block upsets. */
  lemma EdgesUpset(s: LevelState, q': Queue, p: Queue, visible: Size, lo: int, hi: int, id: int)
    requires Ascending(s.queue, lo, hi) && Ascending(q', lo, hi) && Ascending(p, lo, hi)
    requires EdgeBelow(EagerState(s).queue, p)
    requires forall j :: Remaining(q', j) == Remaining(s.queue, j) && (HasOwn(q', j) <==> HasOwn(s.queue, j))
    requires Remaining(s.queue, id) > 0.0 && !EdgeStaysSettled(s.queue, q', p, visible, id)
    ensures var e, r := Eager(q', 0.0), Reconcile(Pessimistic, p, visible);
      HasOwn(r, id) && Remaining(e, id) > 0.0 && BackEdge(e, id) > BackEdge(r, id)
  {
    hide Reconcile, BackEdge, Eager;
    BelowHolds(EagerState(s).queue, p, id);
    EagerOrders(s.queue, s.consumed, id);
    AscendingBounds(s.queue, lo, hi, id);
    SettledEdge(s.queue, q', lo, hi, id);
    ShownEdge(p, visible, lo, hi, id);
  }

  lemma UpsetAt(x: SimState, p: SimState, view: BookView, batch: Option<BlockDiffBatch>, k: Key, id: int)
    requires Inv(x) && Inv(p) && x.bound == Exact && p.bound == Pessimistic && EdgesBelow(Twin(x), p) && k in x.levels
    requires k in OnBook(x, view, batch).levels && k in p.levels && Remaining(x.levels[k].queue, id) > 0.0
    requires !EdgeStaysSettled(x.levels[k].queue, OnBook(x, view, batch).levels[k].queue, p.levels[k].queue,
                               VisibleIn(view, k), id)
    ensures k in OnBook(p, view, batch).levels
    ensures var e, r := Eager(OnBook(x, view, batch).levels[k].queue, 0.0), OnBook(p, view, batch).levels[k].queue;
      HasOwn(r, id) && Remaining(e, id) > 0.0 && BackEdge(e, id) > BackEdge(r, id)
  {
    hide OnBook, Reconcile, EdgeBelow, Eager, BackEdge, EdgeStaysSettled;
    OnBookLaw(p, view, batch);
    var q' := OnBook(x, view, batch).levels[k].queue;
    BlockKeepsOrders(x, view, batch, k, 0);
    forall j
      ensures Remaining(q', j) == Remaining(x.levels[k].queue, j)
      ensures HasOwn(q', j) <==> HasOwn(x.levels[k].queue, j)
    {
      BlockKeepsOrders(x, view, batch, k, j);
    }
    assert k in Twin(x).levels && Twin(x).levels[k] == EagerState(x.levels[k]);
    assert LevelOk(x.bound, x.levels[k], x.nextId) && LevelOk(p.bound, p.levels[k], p.nextId);
    EdgesUpset(x.levels[k], q', p.levels[k].queue, VisibleIn(view, k), 0, x.nextId, id);
  }

  /** After an unsafe block a print of the smaller back edge shows the order that is out of place. */
  lemma UnsafeBlockBreaksIt(x: SimState, p: SimState, view: BookView, batch: Option<BlockDiffBatch>)
    returns (trade: Trade, id: int)
    requires Inv(x) && Inv(p) && x.bound == Exact && p.bound == Pessimistic && EdgesBelow(Twin(x), p)
    requires NothingConsumed(OnBook(x, view, batch)) && !BlockSafe(x, p, view, batch)
    ensures OpenSize(OnTrade(OnBook(x, view, batch), trade).0, id) >
            OpenSize(OnTrade(OnBook(p, view, batch), trade).0, id)
  {
    hide OnTrade, OnBook, OpenSize, Eager, EdgeBelow, EdgeStaysSettled, BackEdge, BlockSafe, Inv;
    var x', p' := OnBook(x, view, batch), OnBook(p, view, batch);
    var k;
    k, id := UnsafeAt(x, p, view, batch);
    UpsetAt(x, p, view, batch, k, id);
    OnBookLaw(x, view, batch);
    OnBookLaw(p, view, batch);
    TwinInv(x');
    assert Twin(x').levels[k].queue == Eager(x'.levels[k].queue, 0.0);
    trade := Trade(x.coin, 0, k.px, BackEdge(p'.levels[k].queue, id), if k.side == Bid then Ask else Bid);
    OnePrintBreaksIt(Twin(x'), p', k, id, trade);
    TwinTradeOpen(x', trade, id);
  }
}
