/**
 * Two simulators on one common script, order by order: under OPTIMISTIC or PRORATA no order has more left, or more
 * volume ahead of it, than under PESSIMISTIC, however many share a level, exactly as long as every cancel leaves the
 * volume ahead of those behind it in order.
 */
module Bracket {
  import opened Schemas
  import opened Fifo
  import opened FifoLaws
  import opened ReconcileLaws
  import opened QueueState
  import opened QueueInvariant

  // ---------- scripts ----------

  /** No print has arrived since the last book (or since the start). */
  predicate BookIsLatest(es: seq<Event>) {
    es == [] || match es[|es| - 1]
                case BookUpdate(_, _) => true
                case TradePrint(_) => false
                case _ => BookIsLatest(es[..|es| - 1])
  }

  /** The engine's contract: orders are placed between blocks, after the book was delivered. */
  predicate PlacesAfterBooks(es: seq<Event>) {
    es == [] ||
    (PlacesAfterBooks(es[..|es| - 1]) && (es[|es| - 1].PlaceOrder? ==> BookIsLatest(es[..|es| - 1])))
  }

  /** Nothing of ours that is still open was placed behind order `id` at its price. */
  predicate NewestAtItsPrice(st: SimState, id: int) {
    id in st.registry ==> forall j :: j in st.registry && st.registry[j] == st.registry[id] ==> j <= id
  }

  /** Every cancel of an open order pulls the newest quote at its price (judged in the PESSIMISTIC run). */
  predicate CancelsNewest(coin: Coin, es: seq<Event>) {
    es == [] ||
    (CancelsNewest(coin, es[..|es| - 1]) &&
     (es[|es| - 1].CancelOrder? ==> NewestAtItsPrice(Run(Init(coin, Pessimistic), es[..|es| - 1]).0, es[|es| - 1].id)))
  }

  predicate NoCancels(es: seq<Event>) {
    forall e :: e in es ==> !e.CancelOrder?
  }

  // ---------- one level under two bounds ----------

  /** Each order in `x` is also in `p`, with no more left and no more volume ahead of it. */
  ghost predicate LevelBelow(x: Queue, p: Queue) {
    forall id :: Remaining(x, id) <= Remaining(p, id) &&
      (HasOwn(x, id) ==> HasOwn(p, id) && VolumeAhead(x, id) <= VolumeAhead(p, id))
  }

  /** Pointwise smaller orders make a smaller own volume ahead. */
  lemma {:induction false} OwnAheadBelow(x: Queue, p: Queue, lo: int, hi: int, id: int)
    requires Ascending(x, lo, hi) && Ascending(p, lo, hi)
    requires HasOwn(p, id) && forall j :: Remaining(x, j) <= Remaining(p, j)
    requires HasOwn(x, id)
    ensures OwnAhead(x, id) <= OwnAhead(p, id)
    decreases |x| + |p|
  {
    if x[0].Real? {
      OwnAheadBelow(x[1..], p, lo, hi, id);
    } else if p[0].Real? {
      OwnAheadBelow(x, p[1..], lo, hi, id);
    } else if x[0].id != id {
      var a, b := x[0].id, p[0].id;
      AscendingBounds(x[1..], a, hi, id);
      assert a < id;
      if b < a {
        forall j ensures Remaining(x, j) <= Remaining(p[1..], j) {
          AscendingBounds(x[1..], a, hi, j);
        }
        Weaken(p[1..], lo, b, hi, hi);
        OwnAheadBelow(x, p[1..], lo, hi, id);
      } else if a == b {
        forall j ensures Remaining(x[1..], j) <= Remaining(p[1..], j) {
          assert Remaining(x, j) <= Remaining(p, j);
          AscendingBounds(x[1..], a, hi, j);
          AscendingBounds(p[1..], b, hi, j);
        }
        assert Remaining(x, a) <= Remaining(p, a);
        OwnAheadBelow(x[1..], p[1..], a, hi, id);
      } else {
        AscendingBounds(p[1..], b, hi, a);
        assert Remaining(x, a) == x[0].sz;
        forall j ensures Remaining(x[1..], j) <= Remaining(p, j) {
          AscendingBounds(x[1..], a, hi, j);
        }
        Weaken(x[1..], lo, a, hi, hi);
        OwnAheadBelow(x[1..], p, lo, hi, id);
      }
    }
  }

  /** A print at the price takes its size off the front: off what is ahead of an order, then off the order. */
  lemma OrderAfterPrint(s: LevelState, sz: Size, lo: int, hi: int, id: int)
    requires Ascending(s.queue, lo, hi)
    ensures var q, after := s.queue, AfterPrint(false, s, At(sz)).queue;
      && Remaining(after, id) == Max(0.0, Remaining(q, id) - Max(0.0, sz - VolumeAhead(q, id)))
      && (HasOwn(after, id) <==> HasOwn(q, id) && Remaining(after, id) > 0.0)
      && (HasOwn(after, id) ==> VolumeAhead(after, id) == Max(0.0, VolumeAhead(q, id) - sz))
  {
    hide WalkAt, Sweep;
    var w := WalkAt(false, s.queue, sz, 0.0, 0.0).queue;
    WalkAtPays(false, s.queue, sz, 0.0, 0.0, lo, hi, id);
    WalkAtLaw(s.queue, sz, 0.0, id);
    SweepLaw(false, w, lo, hi, id);
  }

  lemma OrderAfterThrough(s: LevelState, lo: int, hi: int, id: int)
    requires Ascending(s.queue, lo, hi)
    ensures var after := AfterPrint(false, s, Through).queue; Remaining(after, id) == 0.0 && !HasOwn(after, id)
  {
    hide WalkThrough, Sweep;
    var w := WalkThrough(false, s.queue, 0.0, 0.0).queue;
    WalkThroughPays(false, s.queue, 0.0, 0.0, lo, hi, id);
    SweepLaw(false, w, lo, hi, id);
  }

  /** One print, at the price or through it, keeps one level below another. */
  lemma BelowPrint(x: LevelState, p: LevelState, pr: Print, lo: int, hi: int)
    requires Ascending(x.queue, lo, hi) && Ascending(p.queue, lo, hi) && LevelBelow(x.queue, p.queue)
    ensures LevelBelow(AfterPrint(false, x, pr).queue, AfterPrint(false, p, pr).queue)
  {
    hide AfterPrint;
    var x', p' := AfterPrint(false, x, pr).queue, AfterPrint(false, p, pr).queue;
    forall id
      ensures Remaining(x', id) <= Remaining(p', id)
      ensures HasOwn(x', id) ==> HasOwn(p', id) && VolumeAhead(x', id) <= VolumeAhead(p', id)
    {
      assert Remaining(x.queue, id) <= Remaining(p.queue, id);
      AscendingBounds(x.queue, lo, hi, id);
      match pr
      case At(sz) =>
        OrderAfterPrint(x, sz, lo, hi, id);
        OrderAfterPrint(p, sz, lo, hi, id);
      case Through =>
        OrderAfterThrough(x, lo, hi, id);
        OrderAfterThrough(p, lo, hi, id);
    }
  }

  lemma BelowBook(bound: Bound, x: Queue, p: Queue, visible: Size, lo: int, hi: int)
    requires bound == Optimistic || bound == ProRata
    requires Ascending(x, lo, hi) && Ascending(p, lo, hi) && LevelBelow(x, p)
    ensures LevelBelow(Reconcile(bound, x, visible), Reconcile(Pessimistic, p, visible))
  {
    var x', p' := Reconcile(bound, x, visible), Reconcile(Pessimistic, p, visible);
    forall j ensures Remaining(x', j) == Remaining(x, j) <= Remaining(p, j) == Remaining(p', j) {
      ReconcileLaw(bound, x, visible, lo, hi, j);
      ReconcileLaw(Pessimistic, p, visible, lo, hi, j);
    }
    forall id | HasOwn(x', id) ensures HasOwn(p', id) && VolumeAhead(x', id) <= VolumeAhead(p', id) {
      ReconcileLaw(bound, x, visible, lo, hi, id);
      ReconcileLaw(Pessimistic, p, visible, lo, hi, id);
      OwnAheadBelow(x', x, lo, hi, id);
      OwnAheadBelow(x, p, lo, hi, id);
      OwnAheadBelow(p, p', lo, hi, id);
      AheadSplits(x, id);
      AheadSplits(x', id);
      AheadSplits(p, id);
      AheadSplits(p', id);
    }
  }

  lemma BelowJoin(x: Queue, p: Queue, id: int, sz: Size)
    requires 0 < id && Ascending(x, 0, id) && Ascending(p, 0, id)
    requires LevelBelow(x, p) && RealSize(x) == RealSize(p)
    ensures LevelBelow(x + [Own(id, sz)], p + [Own(id, sz)])
  {
    var x', p' := x + [Own(id, sz)], p + [Own(id, sz)];
    forall j ensures Remaining(x', j) <= Remaining(p', j) {
      AppendLaw(x, Own(id, sz), 0, id, j);
      AppendLaw(p, Own(id, sz), 0, id, j);
      assert Remaining(x, j) <= Remaining(p, j);
    }
    forall j | HasOwn(x', j) ensures HasOwn(p', j) && VolumeAhead(x', j) <= VolumeAhead(p', j) {
      AppendLaw(x, Own(id, sz), 0, id, j);
      AppendLaw(p, Own(id, sz), 0, id, j);
      AscendingBounds(x, 0, id, j);
      if j == id {
        OwnAheadBelow(x', p', 0, id + 1, id);
        AheadSplits(x', id);
        AheadSplits(p', id);
      }
    }
  }

  // ---------- two simulators on one script ----------

  ghost predicate Below(x: SimState, p: SimState) {
    && x.coin == p.coin && x.view == p.view && x.nextId == p.nextId
    && forall k :: k in x.levels ==> k in p.levels && LevelBelow(x.levels[k].queue, p.levels[k].queue)
  }

  /** Every tracked level's real size is the visible one. */
  ghost predicate MatchesView(st: SimState) {
    forall k :: k in st.levels ==> RealSize(st.levels[k].queue) == Visible(st.view, k)
  }

  lemma PrintKeepsBelow(x: SimState, p: SimState, trade: Trade)
    requires Inv(x) && Inv(p) && Below(x, p) && x.bound != Exact && p.bound != Exact
    ensures Below(OnTrade(x, trade).0, OnTrade(p, trade).0)
  {
    var x', p' := OnTrade(x, trade).0, OnTrade(p, trade).0;
    OnTradeLaw(x, trade);
    OnTradeLaw(p, trade);
    forall k | k in x'.levels ensures k in p'.levels && LevelBelow(x'.levels[k].queue, p'.levels[k].queue) {
      assert k in HitBy(x, trade) ==> k in HitBy(p, trade);
      assert k in HitBy(p, trade) && k in x.levels ==> k in HitBy(x, trade);
      assert LevelOk(x.bound, x.levels[k], x.nextId) && LevelOk(p.bound, p.levels[k], p.nextId);
      if k in HitBy(x, trade) {
        BelowPrint(x.levels[k], p.levels[k], PrintOn(k, trade), 0, x.nextId);
        var id := QuotedHasOwn(LevelAfter(x, k, trade).queue);
        HasOwnQuoted(LevelAfter(p, k, trade).queue, id);
      }
    }
  }

  lemma BookKeepsBelow(x: SimState, p: SimState, view: BookView, batch: Option<BlockDiffBatch>)
    requires Inv(x) && Inv(p) && Below(x, p) && (x.bound == Optimistic || x.bound == ProRata) && p.bound == Pessimistic
    ensures Below(OnBook(x, view, batch), OnBook(p, view, batch))
  {
    OnBookLaw(x, view, batch);
    OnBookLaw(p, view, batch);
    forall k | k in x.levels
      ensures LevelBelow(OnBook(x, view, batch).levels[k].queue, OnBook(p, view, batch).levels[k].queue)
    {
      assert LevelOk(x.bound, x.levels[k], x.nextId) && LevelOk(p.bound, p.levels[k], p.nextId);
      BelowBook(x.bound, x.levels[k].queue, p.levels[k].queue, VisibleIn(view, k), 0, x.nextId);
    }
  }

  /** After a book the tracked real size of every level is exactly what the book shows. */
  lemma BookMatchesView(st: SimState, view: BookView, batch: Option<BlockDiffBatch>)
    requires Inv(st) && st.bound != Exact
    ensures MatchesView(OnBook(st, view, batch))
  {
    OnBookLaw(st, view, batch);
    forall k | k in st.levels ensures RealSize(OnBook(st, view, batch).levels[k].queue) == VisibleIn(view, k) {
      assert LevelOk(st.bound, st.levels[k], st.nextId);
      ReconcileLaw(st.bound, st.levels[k].queue, VisibleIn(view, k), 0, st.nextId, 0);
    }
  }

  lemma PlaceMatchesView(st: SimState, key: Key, sz: Size)
    requires Inv(st) && st.bound != Exact && MatchesView(st)
    ensures MatchesView(Place(st, key, sz))
  {
    SeedLaw(st.bound, st.view, key, st.nextId, 0);
    assert key in st.levels ==> LevelOk(st.bound, st.levels[key], st.nextId);
    AppendLaw(Joined(st, key).queue, Own(st.nextId, sz), 0, st.nextId, 0);
  }

  lemma CancelMatchesView(st: SimState, id: int, stale: bool)
    requires Inv(st) && MatchesView(st)
    ensures MatchesView(Cancel(st, id, stale))
  {
    if id in st.registry {
      var key := st.registry[id];
      assert Registered(st.registry, key, id);
      assert Lists(st.levels, key, id);
      assert LevelOk(st.bound, st.levels[key], st.nextId);
      WithoutOwnLaw(st.levels[key].queue, id, 0, st.nextId, 0);
    }
  }

  lemma PlaceKeepsBelow(x: SimState, p: SimState, key: Key, sz: Size)
    requires Inv(x) && Inv(p) && Below(x, p) && x.bound != Exact && p.bound != Exact && MatchesView(x) && MatchesView(p)
    ensures Below(Place(x, key, sz), Place(p, key, sz))
  {
    var qx, qp := Joined(x, key).queue, Joined(p, key).queue;
    SeedLaw(x.bound, x.view, key, x.nextId, 0);
    SeedLaw(p.bound, p.view, key, p.nextId, 0);
    assert key in x.levels ==> LevelOk(x.bound, x.levels[key], x.nextId);
    assert key in p.levels ==> LevelOk(p.bound, p.levels[key], p.nextId);
    forall id
      ensures Remaining(qx, id) <= Remaining(qp, id) &&
        (HasOwn(qx, id) ==> HasOwn(qp, id) && VolumeAhead(qx, id) <= VolumeAhead(qp, id))
    {
      SeedLaw(x.bound, x.view, key, x.nextId, id);
      AscendingBounds(qx, 0, x.nextId, id);
      if key in x.levels {
        assert LevelBelow(x.levels[key].queue, p.levels[key].queue);
      }
    }
    BelowJoin(qx, qp, x.nextId, sz);
  }

  // ---------- cancels ----------

  lemma {:induction false} WithoutAbsent(q: Queue, id: int)
    requires !HasOwn(q, id)
    ensures WithoutOwn(q, id) == q
  {
    if q != [] { WithoutAbsent(q[1..], id); }
  }

  /** Pulling order `gone` takes its remaining size off the volume ahead of every order behind it. */
  lemma {:induction false} PullLaw(q: Queue, gone: int, lo: int, hi: int, id: int)
    requires Ascending(q, lo, hi) && HasOwn(q, id) && id != gone
    ensures VolumeAhead(WithoutOwn(q, gone), id) == VolumeAhead(q, id) - if gone < id then Remaining(q, gone) else 0.0
  {
    var lo' := if q[0].Own? then q[0].id else lo;
    AscendingBounds(q[1..], lo', hi, id);
    AscendingBounds(q[1..], lo', hi, gone);
    if q[0].Own? && q[0].id == id {
      assert WithoutOwn(q, gone)[0] == q[0];
    } else if q[0].Own? && q[0].id == gone {
      WithoutAbsent(q[1..], gone);
    } else {
      PullLaw(q[1..], gone, lo', hi, id);
      assert WithoutOwn(q, gone)[1..] == WithoutOwn(q[1..], gone);
    }
  }

  /** The volume ahead of every order behind `gone` is still in order once what `gone` has left is taken off. */
  ghost predicate AheadSafe(x: Queue, p: Queue, gone: int) {
    forall id :: gone < id && HasOwn(x, id) ==> AheadStays(x, p, gone, id)
  }

  ghost predicate AheadStays(x: Queue, p: Queue, gone: int, id: int) {
    VolumeAhead(x, id) - Remaining(x, gone) <= VolumeAhead(p, id) - Remaining(p, gone)
  }

  ghost predicate OrderAtMost(x: Queue, p: Queue, id: int) {
    Remaining(x, id) <= Remaining(p, id) &&
    (HasOwn(x, id) ==> HasOwn(p, id) && VolumeAhead(x, id) <= VolumeAhead(p, id))
  }

  lemma OrderAfterPull(q: Queue, gone: int, lo: int, hi: int, id: int)
    requires Ascending(q, lo, hi) && id != gone
    ensures var r := WithoutOwn(q, gone);
      && Remaining(r, id) == Remaining(q, id) && (HasOwn(r, id) <==> HasOwn(q, id))
      && (HasOwn(q, id) ==> VolumeAhead(r, id) == VolumeAhead(q, id) - if gone < id then Remaining(q, gone) else 0.0)
  {
    WithoutOwnLaw(q, gone, lo, hi, id);
    if HasOwn(q, id) { PullLaw(q, gone, lo, hi, id); }
  }

  /** Pulling an order keeps one level below another exactly when the volume ahead of those behind it stays in order. */
  lemma PullKeepsBelowIff(x: Queue, p: Queue, gone: int, lo: int, hi: int)
    requires Ascending(x, lo, hi) && Ascending(p, lo, hi) && LevelBelow(x, p)
    ensures LevelBelow(WithoutOwn(x, gone), WithoutOwn(p, gone)) <==> AheadSafe(x, p, gone)
  {
    hide WithoutOwn, VolumeAhead, Remaining;
    var x', p' := WithoutOwn(x, gone), WithoutOwn(p, gone);
    WithoutOwnLaw(x, gone, lo, hi, gone);
    WithoutOwnLaw(p, gone, lo, hi, gone);
    forall id ensures OrderAtMost(x', p', id) <==> (gone < id && HasOwn(x, id) ==> AheadStays(x, p, gone, id)) {
      assert OrderAtMost(x, p, id) by { assert Remaining(x, id) <= Remaining(p, id); }
      if id != gone {
        OrderAfterPull(x, gone, lo, hi, id);
        OrderAfterPull(p, gone, lo, hi, id);
      }
    }
    AtMostBelow(x', p');
  }

  lemma AtMostBelow(x: Queue, p: Queue)
    ensures LevelBelow(x, p) <==> forall id :: OrderAtMost(x, p, id)
  {
    if LevelBelow(x, p) {
      forall id ensures OrderAtMost(x, p, id) {
        assert Remaining(x, id) <= Remaining(p, id);
      }
    }
    if forall id :: OrderAtMost(x, p, id) {
      forall id
        ensures Remaining(x, id) <= Remaining(p, id)
        ensures HasOwn(x, id) ==> HasOwn(p, id) && VolumeAhead(x, id) <= VolumeAhead(p, id)
      {
        assert OrderAtMost(x, p, id);
      }
    }
  }

  /** A cancel touches the level its order is registered at, and no other. */
  lemma CancelLevels(st: SimState, id: int, stale: bool)
    requires Inv(st)
    ensures SameSetting(st, Cancel(st, id, stale)) && Cancel(st, id, stale).nextId == st.nextId
    ensures id !in st.registry ==> Cancel(st, id, stale) == st
    ensures id in st.registry ==> st.registry[id] in st.levels
    ensures id in st.registry ==>
      var key := st.registry[id]; var level := st.levels[key];
      Cancel(st, id, stale).levels ==
        DropIfUnquoted(st.levels[key := level.(queue := WithoutOwn(level.queue, id))], key)
  {
    hide DropIfUnquoted, WithoutOwn;
    if id in st.registry { OpenSizeAt(st, id); }
  }

  /** At the level itself: what is left is the queue without the order, as long as anything of ours is left. */
  lemma CancelAt(st: SimState, id: int, stale: bool, k: Key)
    requires Inv(st) && k in st.levels && (id in st.registry ==> st.registry[id] == k)
    ensures var r, st' := WithoutOwn(st.levels[k].queue, id), Cancel(st, id, stale);
      (k in st'.levels <==> Quoted(r)) && (k in st'.levels ==> st'.levels[k].queue == r)
  {
    hide WithoutOwn, Quoted, Cancel;
    CancelLevels(st, id, stale);
    assert LevelOk(st.bound, st.levels[k], st.nextId);
    assert Lists(st.levels, k, id) <==> Registered(st.registry, k, id);
    if id !in st.registry { WithoutAbsent(st.levels[k].queue, id); }
  }

  /** At any other level nothing moves. */
  lemma CancelElsewhere(st: SimState, id: int, stale: bool, k: Key)
    requires Inv(st) && (id in st.registry ==> st.registry[id] != k)
    ensures var st' := Cancel(st, id, stale);
      (k in st'.levels <==> k in st.levels) && (k in st'.levels ==> st'.levels[k] == st.levels[k])
  {
    hide WithoutOwn, Quoted, Cancel;
    CancelLevels(st, id, stale);
  }

  /** The cancel of order `id` leaves the volume ahead of every order behind it, at its price, in order. */
  ghost predicate AheadSafeCancel(x: SimState, p: SimState, id: int) {
    id in p.registry && p.registry[id] in x.levels && p.registry[id] in p.levels ==>
      AheadSafe(x.levels[p.registry[id]].queue, p.levels[p.registry[id]].queue, id)
  }

  ghost predicate BelowAt(x: SimState, p: SimState, k: Key) {
    k in x.levels ==> k in p.levels && LevelBelow(x.levels[k].queue, p.levels[k].queue)
  }

  lemma NobodyBehind(x: Queue, p: Queue, gone: int, lo: int, hi: int)
    requires Ascending(x, lo, hi) && !Quoted(WithoutOwn(x, gone))
    ensures AheadSafe(x, p, gone)
  {
    forall id ensures gone < id ==> !HasOwn(x, id) {
      WithoutOwnLaw(x, gone, lo, hi, id);
      if HasOwn(WithoutOwn(x, gone), id) { HasOwnQuoted(WithoutOwn(x, gone), id); }
    }
  }

  lemma QuotedAbove(x: Queue, p: Queue)
    requires LevelBelow(x, p) && Quoted(x)
    ensures Quoted(p)
  {
    var id := QuotedHasOwn(x);
    assert Remaining(x, id) <= Remaining(p, id);
    HasOwnQuoted(p, id);
  }

  lemma CancelBelowIff(x: SimState, p: SimState, id: int, stale: bool)
    requires Inv(x) && Inv(p) && Below(x, p) && id in p.registry
    ensures BelowAt(Cancel(x, id, stale), Cancel(p, id, stale), p.registry[id]) <==> AheadSafeCancel(x, p, id)
  {
    hide LevelBelow, AheadSafe, WithoutOwn, Cancel, Quoted;
    var key := p.registry[id];
    RegisteredBelow(x, p, id);
    if key in x.levels {
      CancelAt(x, id, stale, key);
      CancelAt(p, id, stale, key);
      var qx, qp := x.levels[key].queue, p.levels[key].queue;
      assert LevelOk(x.bound, x.levels[key], x.nextId) && LevelOk(p.bound, p.levels[key], p.nextId);
      PullKeepsBelowIff(qx, qp, id, 0, x.nextId);
      if !Quoted(WithoutOwn(qx, id)) {
        NobodyBehind(qx, qp, id, 0, x.nextId);
      } else if LevelBelow(WithoutOwn(qx, id), WithoutOwn(qp, id)) {
        QuotedAbove(WithoutOwn(qx, id), WithoutOwn(qp, id));
      }
    } else {
      CancelLevels(x, id, stale);
    }
  }

  /** Two simulators stay below each other over a cancel exactly when it leaves the volume ahead in order. */
  lemma CancelKeepsBelowIff(x: SimState, p: SimState, id: int, stale: bool)
    requires Inv(x) && Inv(p) && Below(x, p)
    ensures Below(Cancel(x, id, stale), Cancel(p, id, stale)) <==> AheadSafeCancel(x, p, id)
  {
    hide LevelBelow, AheadSafe, WithoutOwn, Cancel, Quoted, AheadSafeCancel;
    var x', p' := Cancel(x, id, stale), Cancel(p, id, stale);
    RegisteredBelow(x, p, id);
    CancelLevels(x, id, stale);
    CancelLevels(p, id, stale);
    if id in p.registry {
      var key := p.registry[id];
      CancelBelowIff(x, p, id, stale);
      forall k | k != key ensures BelowAt(x', p', k) {
        CancelElsewhere(x, id, stale, k);
        CancelElsewhere(p, id, stale, k);
      }
      assert BelowAt(x', p', key) ==> Below(x', p');
    } else {
      NotOpenIsAheadSafe(x, p, id);
    }
  }

  lemma NotOpenIsAheadSafe(x: SimState, p: SimState, id: int)
    requires id !in p.registry
    ensures AheadSafeCancel(x, p, id)
  {}

  lemma StandsInBoth(x: SimState, p: SimState, key: Key, id: int)
    requires Inv(p) && Below(x, p) && Lists(x.levels, key, id)
    ensures Registered(p.registry, key, id)
  {
    var qx, qp := x.levels[key].queue, p.levels[key].queue;
    assert Remaining(qx, id) <= Remaining(qp, id);
    assert Lists(p.levels, key, id);
  }

  /** Nobody stands behind the newest quote at a price. */
  lemma NewestIsAheadSafe(x: SimState, p: SimState, gone: int)
    requires Inv(x) && Inv(p) && Below(x, p) && NewestAtItsPrice(p, gone)
    ensures AheadSafeCancel(x, p, gone)
  {
    if gone in p.registry && p.registry[gone] in x.levels {
      var key := p.registry[gone];
      forall id ensures Lists(x.levels, key, id) ==> id <= gone {
        if Lists(x.levels, key, id) { StandsInBoth(x, p, key, id); }
      }
      assert forall id :: HasOwn(x.levels[key].queue, id) ==> Lists(x.levels, key, id);
    }
  }

  /** An order open in the lower run is open at the same price in the upper one. */
  lemma RegisteredBelow(x: SimState, p: SimState, id: int)
    requires Inv(x) && Inv(p) && Below(x, p)
    ensures id in x.registry ==> id in p.registry && p.registry[id] == x.registry[id]
    ensures OpenSize(x, id) <= OpenSize(p, id)
  {
    if id in x.registry {
      OpenSizeAt(x, id);
      var k := x.registry[id];
      assert LevelBelow(x.levels[k].queue, p.levels[k].queue);
      assert Lists(p.levels, k, id);
      assert Registered(p.registry, k, id);
    }
  }

  lemma {:induction false} RunMatchesView(coin: Coin, bound: Bound, es: seq<Event>)
    requires bound != Exact && PlacesAfterBooks(es) && BookIsLatest(es)
    ensures MatchesView(Run(Init(coin, bound), es).0)
  {
    if es != [] {
      var n := |es| - 1;
      var st := Run(Init(coin, bound), es[..n]).0;
      RunInvariant(coin, bound, es[..n]);
      match es[n]
      case BookUpdate(view, batch) => BookMatchesView(st, view, batch);
      case PlaceOrder(key, sz) =>
        RunMatchesView(coin, bound, es[..n]);
        PlaceMatchesView(st, key, sz);
      case CancelOrder(id, stale) =>
        RunMatchesView(coin, bound, es[..n]);
        CancelMatchesView(st, id, stale);
      case TradePrint(_) =>
    }
  }

  ghost predicate BelowAfter(coin: Coin, bound: Bound, es: seq<Event>) {
    Below(Run(Init(coin, bound), es).0, Run(Init(coin, Pessimistic), es).0)
  }

  ghost predicate AheadSafeNext(coin: Coin, bound: Bound, es: seq<Event>, e: Event) {
    e.CancelOrder? ==> AheadSafeCancel(Run(Init(coin, bound), es).0, Run(Init(coin, Pessimistic), es).0, e.id)
  }

  /** Every cancel of a script leaves the volume ahead in order where it comes. */
  ghost predicate AheadSafeCancels(coin: Coin, bound: Bound, es: seq<Event>) {
    es == [] ||
    (AheadSafeCancels(coin, bound, es[..|es| - 1]) && AheadSafeNext(coin, bound, es[..|es| - 1], es[|es| - 1]))
  }

  lemma EventKeepsBelow(coin: Coin, bound: Bound, es: seq<Event>)
    requires (bound == Optimistic || bound == ProRata) && es != [] && PlacesAfterBooks(es)
    requires BelowAfter(coin, bound, es[..|es| - 1])
    ensures BelowAfter(coin, bound, es) <==> AheadSafeNext(coin, bound, es[..|es| - 1], es[|es| - 1])
  {
    hide Below, AheadSafeCancel, Place, Cancel, OnTrade, OnBook, Inv;
    var n := |es| - 1;
    RunInvariant(coin, bound, es[..n]);
    RunInvariant(coin, Pessimistic, es[..n]);
    var x, p := Run(Init(coin, bound), es[..n]).0, Run(Init(coin, Pessimistic), es[..n]).0;
    match es[n]
    case PlaceOrder(key, sz) =>
      RunMatchesView(coin, bound, es[..n]);
      RunMatchesView(coin, Pessimistic, es[..n]);
      PlaceKeepsBelow(x, p, key, sz);
    case CancelOrder(id, stale) => CancelKeepsBelowIff(x, p, id, stale);
    case TradePrint(trade) => PrintKeepsBelow(x, p, trade);
    case BookUpdate(view, batch) => BookKeepsBelow(x, p, view, batch);
  }

  /**
   * Over whole runs each level of the lower simulator stays order by order below the PESSIMISTIC one, less left and
   * less volume ahead, exactly when every cancel leaves the volume ahead in order.
   */
  lemma {:induction false} RunsStayBelow(coin: Coin, bound: Bound, es: seq<Event>)
    requires (bound == Optimistic || bound == ProRata) && PlacesAfterBooks(es)
    ensures AheadSafeCancels(coin, bound, es) <==> forall n :: 0 <= n <= |es| ==> BelowAfter(coin, bound, es[..n])
  {
    hide BelowAfter, AheadSafeNext;
    if es == [] {
      StartsBelow(coin, bound);
      assert es[..0] == [];
    } else {
      var m := |es| - 1;
      RunsStayBelow(coin, bound, es[..m]);
      forall n | 0 <= n <= m ensures es[..m][..n] == es[..n] {}
      assert es[..|es|] == es;
      if AheadSafeCancels(coin, bound, es[..m]) {
        assert es[..m][..m] == es[..m];
        EventKeepsBelow(coin, bound, es);
      }
    }
  }

  lemma StartsBelow(coin: Coin, bound: Bound)
    ensures BelowAfter(coin, bound, [])
  {}

  /** Pulling only newest quotes keeps the simulators below each other. */
  lemma {:induction false} NewestStayBelow(coin: Coin, bound: Bound, es: seq<Event>)
    requires (bound == Optimistic || bound == ProRata) && PlacesAfterBooks(es) && CancelsNewest(coin, es)
    ensures BelowAfter(coin, bound, es)
  {
    hide Below, AheadSafeCancel, Run, Inv, NewestAtItsPrice;
    if es == [] {
      StartsBelow(coin, bound);
    } else {
      var n := |es| - 1;
      NewestStayBelow(coin, bound, es[..n]);
      RunInvariant(coin, bound, es[..n]);
      RunInvariant(coin, Pessimistic, es[..n]);
      if es[n].CancelOrder? {
        NewestIsAheadSafe(Run(Init(coin, bound), es[..n]).0, Run(Init(coin, Pessimistic), es[..n]).0, es[n].id);
      }
      EventKeepsBelow(coin, bound, es);
    }
  }

  /** A registered order's open size is its segment's, at its level. */
  lemma OpenSizeAt(st: SimState, id: int)
    requires Inv(st) && id in st.registry
    ensures st.registry[id] in st.levels && HasOwn(st.levels[st.registry[id]].queue, id)
  {
    assert Registered(st.registry, st.registry[id], id);
    assert Lists(st.levels, st.registry[id], id);
  }

  /** Order `id` has no more left in `x` than in `p`, and is open in `p` whenever it is open in `x`. */
  ghost predicate NoMoreLeft(x: SimState, p: SimState, id: int) {
    OpenSize(x, id) <= OpenSize(p, id) && (id in x.registry ==> id in p.registry)
  }

  /**
   * A run in which an order never has more left than in another fills it at least as much: an order open only in
   * the other run has been filled in full.
   */
  lemma {:induction false} LessLeftMoreFilled(coin: Coin, bx: Bound, bp: Bound, es: seq<Event>, id: int)
    requires forall n :: 0 <= n <= |es| ==>
      NoMoreLeft(Run(Init(coin, bx), es[..n]).0, Run(Init(coin, bp), es[..n]).0, id)
    ensures var (x, fx) := Run(Init(coin, bx), es);
      var (p, fp) := Run(Init(coin, bp), es);
      FilledSize(fp, id) <= FilledSize(fx, id) &&
      (id in p.registry && id !in x.registry ==> FilledSize(fx, id) == PlacedSize(es, id))
  {
    if es != [] {
      var n := |es| - 1;
      forall m | 0 <= m <= n
        ensures NoMoreLeft(Run(Init(coin, bx), es[..n][..m]).0, Run(Init(coin, bp), es[..n][..m]).0, id)
      {
        assert es[..n][..m] == es[..m];
      }
      LessLeftMoreFilled(coin, bx, bp, es[..n], id);
      assert es[..n + 1] == es;
      RunInvariant(coin, bx, es[..n]);
      RunInvariant(coin, bp, es[..n]);
      var (x, fx) := Run(Init(coin, bx), es[..n]);
      var (p, fp) := Run(Init(coin, bp), es[..n]);
      FillsAppend(fx, Step(x, es[n]).1, id);
      FillsAppend(fp, Step(p, es[n]).1, id);
      StepAccount(x, es[n], id);
      StepAccount(p, es[n], id);
      StepKeepsInv(x, es[n]);
      StepKeepsInv(p, es[n]);
      StepAccount(Step(x, es[n]).0, es[n], id);
      OrderAccount(coin, bx, es[..n], id);
      OrderAccount(coin, bp, es[..n], id);
      OrderAccount(coin, bx, es, id);
      OrderAccount(coin, bp, es, id);
    }
  }
}
