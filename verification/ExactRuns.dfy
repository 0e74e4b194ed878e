/** EXACT mode over whole runs of a well-formed block stream. */
module ExactRuns {
  import opened Schemas
  import opened Fifo
  import opened FifoLaws
  import opened OrderList
  import opened QueueState
  import opened QueueInvariant
  import opened Bracket
  import opened ExactMode
  import BookState

  // ---------- streams ----------

  /** A new order comes with a size and an unused oid; a resize or removal names the price the order rests at. */
  predicate DiffOk(b: Orders, diff: BookDiff) {
    match diff.kind
    case New(sz) => sz.Some? && !Holds(b, diff.oid)
    case Remove => Holds(b, diff.oid) ==> Find(b, diff.oid).key == diff.key
    case Update(_, newSz) => newSz.Some? && (Holds(b, diff.oid) ==> Find(b, diff.oid).key == diff.key)
  }

  predicate DiffsOk(b: Orders, diffs: seq<BookDiff>) {
    diffs == [] || (DiffsOk(b, diffs[..|diffs| - 1]) && DiffOk(ApplyAll(b, diffs[..|diffs| - 1]), diffs[|diffs| - 1]))
  }

  /** The order-level book after a run that starts from `b0`. */
  function BookAfter(b0: Orders, es: seq<Event>): Orders {
    if es == [] then b0 else
      var earlier := BookAfter(b0, es[..|es| - 1]);
      match es[|es| - 1]
      case BookUpdate(_, Some(batch)) => ApplyAll(earlier, batch.diffs)
      case _ => earlier
  }

  predicate SeenBook(es: seq<Event>) {
    es != [] && (es[|es| - 1].BookUpdate? || SeenBook(es[..|es| - 1]))
  }

  ghost predicate ShowsOrders(view: BookView, b: Orders) {
    view.orders.Some? && forall k :: OrdersAt(view.orders.value, k) == LevelOf(b, k)
  }

  /**
   * Every book update carries its block's well-formed diffs and shows the book they lead to; quoting starts after the
   * first.
   */
  ghost predicate ExactStream(b0: Orders, es: seq<Event>) {
    es == [] ||
    (ExactStream(b0, es[..|es| - 1]) &&
     match es[|es| - 1]
     case BookUpdate(view, batch) => batch.Some? && DiffsOk(BookAfter(b0, es[..|es| - 1]), batch.value.diffs) &&
     ShowsOrders(view, BookAfter(b0, es))
     case PlaceOrder(_, _) => SeenBook(es[..|es| - 1])
     case _ => true)
  }

  /** An order-level book's own view shows its orders. */
  lemma OwnViewShows(b: Orders)
    ensures ShowsOrders(BookState.ViewOf(b), b)
  {
    forall k ensures OrdersAt(BookState.ViewOf(b).orders.value, k) == LevelOf(b, k) {
      BookState.LevelHasOrder(b, k);
    }
  }

  // ---------- what leaves the real orders of a level alone ----------

  /** The real orders standing before order `id`. */
  function ErasedBefore(q: Queue, id: int): seq<(int, Size)> {
    if q == [] || (q[0].Own? && q[0].id == id) then []
    else if q[0].Real? && q[0].oid.Some? then [(q[0].oid.value, q[0].sz)] + ErasedBefore(q[1..], id)
    else ErasedBefore(q[1..], id)
  }

  ghost predicate SameReal(q: Queue, r: Queue) {
    Erased(r) == Erased(q) && (Named(q) ==> Named(r)) &&
    forall id :: HasOwn(r, id) ==> HasOwn(q, id) && ErasedBefore(r, id) == ErasedBefore(q, id)
  }

  lemma {:induction false} SameRealCons(s: Segment, q: Queue, r: Queue)
    requires SameReal(q, r)
    ensures SameReal([s] + q, [s] + r)
    ensures s.Own? ==> forall sz :: SameReal([s] + q, [Own(s.id, sz)] + r)
    ensures s.Own? && !HasOwn(r, s.id) ==> SameReal([s] + q, r)
  {
    assert ([s] + q)[1..] == q && ([s] + r)[1..] == r;
    forall sz: Size | s.Own? ensures SameReal([s] + q, [Own(s.id, sz)] + r) {
      assert ([Own(s.id, sz)] + r)[1..] == r;
    }
  }

  lemma {:induction false} WithoutOwnKeepsReal(q: Queue, gone: int, lo: int, hi: int)
    requires Ascending(q, lo, hi)
    ensures SameReal(q, WithoutOwn(q, gone))
  {
    if q != [] {
      var lo' := if q[0].Own? then q[0].id else lo;
      WithoutOwnKeepsReal(q[1..], gone, lo', hi);
      WithoutOwnLaw(q[1..], gone, lo', hi, gone);
      SameRealCons(q[0], q[1..], WithoutOwn(q[1..], gone));
      assert q == [q[0]] + q[1..];
    }
  }

  lemma {:induction false} WalkAtKeepsReal(q: Queue, budget: Size, skip: Size, ahead: Size, lo: int, hi: int)
    requires Ascending(q, lo, hi)
    ensures SameReal(q, Sweep(true, WalkAt(true, q, budget, skip, ahead).queue))
  {
    if q == [] || budget <= 0.0 {
      SweepKeepsReal(q, lo, hi);
    } else {
      assert q == [q[0]] + q[1..];
      match q[0]
      case Real(_, sz) =>
        var already := Min(sz, skip);
        var take := Min(budget, sz - already);
        WalkAtKeepsReal(q[1..], budget - take, skip - already, ahead + sz - already, lo, hi);
        var rest := WalkAt(true, q[1..], budget - take, skip - already, ahead + sz - already).queue;
        SameRealCons(q[0], q[1..], Sweep(true, rest));
        assert ([q[0]] + rest)[1..] == rest;
      case Own(a, sz) =>
        var take := Min(budget, sz);
        WalkAtKeepsReal(q[1..], budget - take, skip, ahead, a, hi);
        var rest := WalkAt(true, q[1..], budget - take, skip, ahead).queue;
        WalkAtPays(true, q[1..], budget - take, skip, ahead, a, hi, a);
        SweepLaw(true, rest, a, hi, a);
        AscendingBounds(q[1..], a, hi, a);
        SameRealCons(q[0], q[1..], Sweep(true, rest));
        assert ([Own(a, sz - take)] + rest)[1..] == rest;
    }
  }

  lemma {:induction false} SweepKeepsReal(q: Queue, lo: int, hi: int)
    requires Ascending(q, lo, hi)
    ensures SameReal(q, Sweep(true, q))
  {
    if q != [] {
      var lo' := if q[0].Own? then q[0].id else lo;
      SweepKeepsReal(q[1..], lo', hi);
      SweepLaw(true, q[1..], lo', hi, if q[0].Own? then q[0].id else 0);
      AscendingBounds(q[1..], lo', hi, if q[0].Own? then q[0].id else 0);
      SameRealCons(q[0], q[1..], Sweep(true, q[1..]));
      assert q == [q[0]] + q[1..];
    }
  }

  lemma {:induction false} ThroughKeepsReal(q: Queue, skip: Size, ahead: Size, lo: int, hi: int)
    requires Ascending(q, lo, hi)
    ensures SameReal(q, Sweep(true, WalkThrough(true, q, skip, ahead).queue))
  {
    if q != [] {
      assert q == [q[0]] + q[1..];
      match q[0]
      case Real(_, sz) =>
        var already := Min(sz, skip);
        ThroughKeepsReal(q[1..], skip - already, ahead + sz - already, lo, hi);
        var rest := WalkThrough(true, q[1..], skip - already, ahead + sz - already).queue;
        SameRealCons(q[0], q[1..], Sweep(true, rest));
        assert ([q[0]] + rest)[1..] == rest;
      case Own(a, sz) =>
        ThroughKeepsReal(q[1..], skip, ahead, a, hi);
        var rest := WalkThrough(true, q[1..], skip, ahead).queue;
        WalkThroughPays(true, q[1..], skip, ahead, a, hi, a);
        SweepLaw(true, rest, a, hi, a);
        AscendingBounds(q[1..], a, hi, a);
        SameRealCons(q[0], q[1..], Sweep(true, rest));
        assert ([Own(a, 0.0)] + rest)[1..] == rest;
    }
  }

  lemma PrintKeepsReal(s: LevelState, p: Print, lo: int, hi: int)
    requires Ascending(s.queue, lo, hi)
    ensures SameReal(s.queue, AfterPrint(true, s, p).queue)
  {
    match p
    case At(sz) => WalkAtKeepsReal(s.queue, sz, s.consumed, 0.0, lo, hi);
    case Through => ThroughKeepsReal(s.queue, s.consumed, 0.0, lo, hi);
  }

  // ---------- the book after a run ----------

  lemma {:induction false} ApplyAllUnique(b: Orders, diffs: seq<BookDiff>)
    requires Unique(b)
    ensures Unique(ApplyAll(b, diffs))
  {
    if diffs != [] {
      ApplyAllUnique(b, diffs[..|diffs| - 1]);
      ApplyKeepsUnique(ApplyAll(b, diffs[..|diffs| - 1]), diffs[|diffs| - 1]);
    }
  }

  lemma {:induction false} BookAfterUnique(b0: Orders, es: seq<Event>)
    requires Unique(b0)
    ensures Unique(BookAfter(b0, es))
  {
    if es != [] {
      BookAfterUnique(b0, es[..|es| - 1]);
      if es[|es| - 1].BookUpdate? && es[|es| - 1].batch.Some? {
        ApplyAllUnique(BookAfter(b0, es[..|es| - 1]), es[|es| - 1].batch.value.diffs);
      }
    }
  }

  lemma DiffOkIsFaithful(b: Orders, diff: BookDiff, k: Key)
    requires DiffOk(b, diff)
    ensures Faithful(b, diff, k)
  {}

  // ---------- tracked levels are the book's levels ----------

  ghost predicate MatchesOrders(levels: map<Key, LevelState>, b: Orders) {
    forall k :: k in levels ==> Named(levels[k].queue) && Erased(levels[k].queue) == LevelOf(b, k)
  }

  lemma {:induction false} SeedErased(orders: seq<(int, Size)>)
    ensures Erased(RealSegments(orders)) == orders && Named(RealSegments(orders))
  {
    if orders != [] { SeedErased(orders[1..]); }
  }

  /** What one diff does to every tracked level. */
  lemma ApplyDiffLevels(st: SimState, diff: BookDiff)
    ensures var st' := ApplyDiff(st, diff);
      st'.levels.Keys == st.levels.Keys && st'.registry == st.registry && st'.bound == st.bound &&
      st'.nextId == st.nextId &&
      forall k :: k in st.levels ==> st'.levels[k] == st.levels[k].(queue := LevelDiff(st.levels[k].queue, k, diff))
  {}

  lemma LevelDiffNamed(q: Queue, k: Key, diff: BookDiff)
    requires Named(q)
    ensures Named(LevelDiff(q, k, diff))
  {
    match diff.kind
    case New(sz) => ErasedAppend(q, Real(Some(diff.oid), if sz.None? then 0.0 else sz.value));
    case Remove => ErasedEdits(q, diff.oid, 0.0);
    case Update(_, newSz) => ErasedEdits(q, diff.oid, if newSz.Some? && newSz.value > 0.0 then newSz.value else 0.0);
  }

  lemma {:induction false} DiffsMatchOrders(st: SimState, b: Orders, diffs: seq<BookDiff>)
    requires Unique(b) && MatchesOrders(st.levels, b) && DiffsOk(b, diffs)
    ensures MatchesOrders(ApplyDiffs(st, diffs).levels, ApplyAll(b, diffs))
  {
    if diffs != [] {
      var n := |diffs| - 1;
      DiffsMatchOrders(st, b, diffs[..n]);
      var st1, b1, diff := ApplyDiffs(st, diffs[..n]), ApplyAll(b, diffs[..n]), diffs[n];
      ApplyAllUnique(b, diffs[..n]);
      ApplyDiffLevels(st1, diff);
      forall k | k in st1.levels
        ensures var q := LevelDiff(st1.levels[k].queue, k, diff); Named(q) && Erased(q) == LevelOf(Apply(b1, diff), k)
      {
        DiffOkIsFaithful(b1, diff, k);
        DiffAgreesIff(st1.levels[k].queue, b1, diff, k);
        LevelDiffNamed(st1.levels[k].queue, k, diff);
      }
    }
  }

  lemma PlaceMatchesOrders(st: SimState, b: Orders, key: Key, sz: Size)
    requires MatchesOrders(st.levels, b) && st.bound == Exact && st.view.Some? && ShowsOrders(st.view.value, b)
    ensures MatchesOrders(Place(st, key, sz).levels, b)
  {
    SeedErased(OrdersAt(st.view.value.orders.value, key));
    ErasedAppend(Joined(st, key).queue, Own(st.nextId, sz));
  }

  lemma StepMatchesOrders(st: SimState, b: Orders, e: Event)
    requires Inv(st) && st.bound == Exact && Unique(b) && MatchesOrders(st.levels, b)
    requires e.PlaceOrder? ==> st.view.Some? && ShowsOrders(st.view.value, b)
    requires e.BookUpdate? ==> e.batch.Some? && DiffsOk(b, e.batch.value.diffs)
    ensures MatchesOrders(Step(st, e).0.levels, if e.BookUpdate? then ApplyAll(b, e.batch.value.diffs) else b)
  {
    match e
    case PlaceOrder(key, sz) => PlaceMatchesOrders(st, b, key, sz);
    case CancelOrder(id, _) =>
      if id in st.registry {
        OpenSizeAt(st, id);
        var k := st.registry[id];
        assert LevelOk(st.bound, st.levels[k], st.nextId);
        WithoutOwnKeepsReal(st.levels[k].queue, id, 0, st.nextId);
      }
    case TradePrint(trade) =>
      OnTradeLaw(st, trade);
      forall k | k in OnTrade(st, trade).0.levels
        ensures Named(OnTrade(st, trade).0.levels[k].queue) &&
          Erased(OnTrade(st, trade).0.levels[k].queue) == LevelOf(b, k)
      {
        assert LevelOk(st.bound, st.levels[k], st.nextId);
        PrintKeepsReal(st.levels[k], PrintOn(k, trade), 0, st.nextId);
      }
    case BookUpdate(view, batch) =>
      var settled := st.(view := Some(view), lastHeight := Some(batch.value.height), levels := Settled(st.levels));
      DiffsMatchOrders(settled, b, batch.value.diffs);
  }

  lemma {:induction false} ViewShown(coin: Coin, b0: Orders, es: seq<Event>)
    requires ExactStream(b0, es) && SeenBook(es)
    ensures var st := Run(Init(coin, Exact), es).0; st.view.Some? && ShowsOrders(st.view.value, BookAfter(b0, es))
  {
    var n := |es| - 1;
    var st1 := Run(Init(coin, Exact), es[..n]).0;
    RunInvariant(coin, Exact, es[..n]);
    match es[n]
    case BookUpdate(view, batch) => OnBookLaw(st1, view, batch);
    case TradePrint(trade) =>
      ViewShown(coin, b0, es[..n]);
      OnTradeLaw(st1, trade);
    case _ => ViewShown(coin, b0, es[..n]);
  }

  /** After any well-formed run, erasing our orders from a tracked level gives the book's FIFO queue at that price. */
  lemma {:induction false} TrackedLevelsAreTheBook(coin: Coin, b0: Orders, es: seq<Event>)
    requires Unique(b0) && ExactStream(b0, es)
    ensures MatchesOrders(Run(Init(coin, Exact), es).0.levels, BookAfter(b0, es))
  {
    if es != [] {
      var n := |es| - 1;
      TrackedLevelsAreTheBook(coin, b0, es[..n]);
      RunInvariant(coin, Exact, es[..n]);
      BookAfterUnique(b0, es[..n]);
      if es[n].PlaceOrder? { ViewShown(coin, b0, es[..n]); }
      StepMatchesOrders(Run(Init(coin, Exact), es[..n]).0, BookAfter(b0, es[..n]), es[n]);
    }
  }

  // ---------- the same order as a real one ----------

  /** The book a run would have built had order `id` been a real order with oid `oid` from its placing on. */
  function ShadowBook(b0: Orders, es: seq<Event>, id: int, oid: int): Orders {
    if es == [] then b0 else
      var last := es[|es| - 1];
      if last.PlaceOrder? && |Placements(es)| == id then BookAfter(b0, es[..|es| - 1]) + [Order(oid, last.key, last.sz)]
      else if last.BookUpdate? && last.batch.Some? then
        ApplyAll(ShadowBook(b0, es[..|es| - 1], id, oid), last.batch.value.diffs)
      else ShadowBook(b0, es[..|es| - 1], id, oid)
  }

  predicate Untouched(diffs: seq<BookDiff>, oid: int) {
    forall d :: d in diffs ==> d.oid != oid
  }

  /** No diff of the run speaks of `oid`. */
  predicate NeverNamed(es: seq<Event>, oid: int) {
    forall e :: e in es && e.BookUpdate? && e.batch.Some? ==> Untouched(e.batch.value.diffs, oid)
  }

  /** `shadow` is `pre + post` with one more order in between, and `pre` holds what stands before order `id` at `k`. */
  ghost predicate Shadows(q: Queue, id: int, k: Key, o: Order, pre: Orders, post: Orders) {
    Named(q) && HasOwn(q, id) && Erased(q) == LevelOf(pre + post, k) && ErasedBefore(q, id) == LevelOf(pre, k) &&
    Unique(pre + post) && !Holds(pre + post, o.oid) && o.key == k
  }

  lemma {:induction false} BeforeEdits(q: Queue, id: int, oid: int, sz: Size)
    requires Named(q)
    ensures ErasedBefore(RemoveOid(q, oid), id) == Dropped(ErasedBefore(q, id), oid) || !HasOwn(q, id)
    ensures ErasedBefore(ResizeOid(q, oid, sz), id) == Rewritten(ErasedBefore(q, id), oid, sz) || !HasOwn(q, id)
    ensures HasOwn(RemoveOid(q, oid), id) <==> HasOwn(q, id)
    ensures HasOwn(ResizeOid(q, oid, sz), id) <==> HasOwn(q, id)
  {
    if q != [] {
      BeforeEdits(q[1..], id, oid, sz);
      if q[0].Real? { assert ErasedBefore(q, id)[1..] == ErasedBefore(q[1..], id); }
    }
  }

  lemma {:induction false} BeforeAppend(q: Queue, s: Segment, id: int)
    ensures HasOwn(q, id) ==> HasOwn(q + [s], id) && ErasedBefore(q + [s], id) == ErasedBefore(q, id)
    ensures !HasOwn(q, id) && s == Own(id, s.sz) ==> HasOwn(q + [s], id) && ErasedBefore(q + [s], id) == Erased(q)
  {
    if q == [] { assert q + [s] == [s]; } else {
      assert (q + [s])[1..] == q[1..] + [s];
      BeforeAppend(q[1..], s, id);
    }
  }

  /** `Apply` on a part of the book: announcements go to the back, so they leave the part alone. */
  function ApplyPart(b: Orders, diff: BookDiff): Orders {
    if diff.kind.New? then b else Apply(b, diff)
  }

  lemma EditsAppend(a: Orders, b: Orders, oid: int, sz: Size)
    ensures Without(a + b, oid) == Without(a, oid) + Without(b, oid)
    ensures Resized(a + b, oid, sz) == Resized(a, oid, sz) + Resized(b, oid, sz)
  {
    WithoutAppend(a, b, oid);
    ResizedAppend(a, b, oid, sz);
  }

  lemma {:induction false} WithoutAppend(a: Orders, b: Orders, oid: int)
    ensures Without(a + b, oid) == Without(a, oid) + Without(b, oid)
  {
    if a == [] { assert a + b == b; } else {
      assert (a + b)[1..] == a[1..] + b;
      WithoutAppend(a[1..], b, oid);
    }
  }

  lemma {:induction false} ResizedAppend(a: Orders, b: Orders, oid: int, sz: Size)
    ensures Resized(a + b, oid, sz) == Resized(a, oid, sz) + Resized(b, oid, sz)
  {
    if a == [] { assert a + b == b; } else {
      assert (a + b)[1..] == a[1..] + b;
      ResizedAppend(a[1..], b, oid, sz);
    }
  }

  lemma {:induction false} UniqueSplits(a: Orders, b: Orders)
    requires Unique(a + b)
    ensures Unique(a) && Unique(b) && forall x :: Holds(a, x) ==> !Holds(b, x)
  {
    if a == [] { assert a + b == b; } else {
      assert (a + b)[1..] == a[1..] + b;
      UniqueSplits(a[1..], b);
      HoldsAppend(a[1..], b, a[0].oid);
    }
  }

  /** A diff acts on the parts of a split book one by one. */
  lemma ApplySplits(pre: Orders, post: Orders, o: Order, diff: BookDiff) returns (post': Orders)
    requires DiffOk(pre + post, diff) && diff.oid != o.oid
    ensures Apply(pre + post, diff) == ApplyPart(pre, diff) + post'
    ensures Apply(pre + [o] + post, diff) == ApplyPart(pre, diff) + [o] + post'
  {
    var oid := diff.oid;
    var sz :=
      if diff.kind.Update? && diff.kind.newSz.Some? && diff.kind.newSz.value > 0.0 then diff.kind.newSz.value else 0.0;
    EditsAppend(pre, post, oid, sz);
    EditsAppend(pre + [o], post, oid, sz);
    EditsAppend(pre, [o], oid, sz);
    assert Without([o], oid) == [o] && Resized([o], oid, sz) == [o];
    post' := ApplyPart(post, diff);
    if diff.kind.New? {
      var new' := Order(oid, diff.key, diff.kind.sz.value);
      HoldsAppend(pre, post, oid);
      WithoutLaw(pre + post, oid, oid);
      WithoutLaw(pre, oid, oid);
      WithoutLaw(post, oid, oid);
      post' := post + [new'];
      assert pre + post + [new'] == pre + post';
      assert pre + [o] + post + [new'] == pre + [o] + post';
    }
  }

  lemma {:induction false} ListedAppend(a: seq<(int, Size)>, b: seq<(int, Size)>, oid: int)
    ensures Listed(a + b, oid) <==> Listed(a, oid) || Listed(b, oid)
  {
    if a == [] { assert a + b == b; } else {
      assert (a + b)[1..] == a[1..] + b;
      ListedAppend(a[1..], b, oid);
    }
  }

  /** The volume before our order changes exactly as the orders before its shadow do. */
  lemma BeforeFollows(q: Queue, id: int, k: Key, o: Order, pre: Orders, post: Orders, diff: BookDiff)
    requires Shadows(q, id, k, o, pre, post) && DiffOk(pre + post, diff)
    ensures HasOwn(LevelDiff(q, k, diff), id)
    ensures ErasedBefore(LevelDiff(q, k, diff), id) == LevelOf(ApplyPart(pre, diff), k)
  {
    var oid := diff.oid;
    var sz :=
      if diff.kind.Update? && diff.kind.newSz.Some? && diff.kind.newSz.value > 0.0 then diff.kind.newSz.value else 0.0;
    UniqueSplits(pre, post);
    LevelWithout(pre, oid, k);
    LevelResized(pre, oid, sz, k);
    BeforeEdits(q, id, oid, sz);
    BeforeAppend(q, Real(Some(oid), if diff.kind.New? && diff.kind.sz.Some? then diff.kind.sz.value else 0.0), id);
    ErasedEdits(q, oid, sz);
    LevelAppend(pre, post, k);
    ListedAppend(LevelOf(pre, k), LevelOf(post, k), oid);
    ListedAt(pre + post, k, oid);
  }

  lemma ShadowDiff(q: Queue, id: int, k: Key, o: Order, pre: Orders, post: Orders, diff: BookDiff)
    returns (pre': Orders, post': Orders)
    requires Shadows(q, id, k, o, pre, post) && DiffOk(pre + post, diff) && diff.oid != o.oid
    ensures Shadows(LevelDiff(q, k, diff), id, k, o, pre', post')
    ensures Apply(pre + post, diff) == pre' + post' && Apply(pre + [o] + post, diff) == pre' + [o] + post'
  {
    pre' := ApplyPart(pre, diff);
    post' := ApplySplits(pre, post, o, diff);
    BeforeFollows(q, id, k, o, pre, post, diff);
    DiffOkIsFaithful(pre + post, diff, k);
    DiffAgreesIff(q, pre + post, diff, k);
    LevelDiffNamed(q, k, diff);
    ApplyKeepsUnique(pre + post, diff);
    ApplyHolds(pre + post, diff, o.oid);
  }

  lemma ApplyHolds(b: Orders, diff: BookDiff, oid: int)
    requires !Holds(b, oid) && diff.oid != oid
    ensures !Holds(Apply(b, diff), oid)
  {
    WithoutLaw(b, diff.oid, oid);
    match diff.kind
    case New(sz) => if sz.Some? { HoldsAppend(Without(b, diff.oid), [Order(diff.oid, diff.key, sz.value)], oid); }
    case Remove =>
    case Update(_, newSz) => if newSz.Some? && newSz.value > 0.0 { ResizedLaw(b, diff.oid, newSz.value, oid); }
  }

  lemma {:induction false} ShadowDiffs(
      st: SimState, id: int, k: Key, o: Order, pre: Orders, post: Orders, diffs: seq<BookDiff>)
    returns (pre': Orders, post': Orders)
    requires k in st.levels && Shadows(st.levels[k].queue, id, k, o, pre, post)
    requires DiffsOk(pre + post, diffs) && Untouched(diffs, o.oid)
    ensures k in ApplyDiffs(st, diffs).levels && Shadows(ApplyDiffs(st, diffs).levels[k].queue, id, k, o, pre', post')
    ensures ApplyAll(pre + post, diffs) == pre' + post' && ApplyAll(pre + [o] + post, diffs) == pre' + [o] + post'
  {
    pre', post' := pre, post;
    if diffs != [] {
      var n := |diffs| - 1;
      assert diffs[n] in diffs;
      pre', post' := ShadowDiffs(st, id, k, o, pre, post, diffs[..n]);
      var st1 := ApplyDiffs(st, diffs[..n]);
      ApplyDiffLevels(st1, diffs[n]);
      pre', post' := ShadowDiff(st1.levels[k].queue, id, k, o, pre', post', diffs[n]);
    }
  }

  lemma {:induction false} BookNeverHolds(b0: Orders, es: seq<Event>, oid: int)
    requires !Holds(b0, oid) && NeverNamed(es, oid)
    ensures !Holds(BookAfter(b0, es), oid)
  {
    if es != [] {
      assert es[|es| - 1] in es;
      BookNeverHolds(b0, es[..|es| - 1], oid);
      if es[|es| - 1].BookUpdate? && es[|es| - 1].batch.Some? {
        AllNeverHold(BookAfter(b0, es[..|es| - 1]), es[|es| - 1].batch.value.diffs, oid);
      }
    }
  }

  lemma {:induction false} AllNeverHold(b: Orders, diffs: seq<BookDiff>, oid: int)
    requires !Holds(b, oid) && Untouched(diffs, oid)
    ensures !Holds(ApplyAll(b, diffs), oid)
  {
    if diffs != [] {
      assert diffs[|diffs| - 1] in diffs;
      AllNeverHold(b, diffs[..|diffs| - 1], oid);
      ApplyHolds(ApplyAll(b, diffs[..|diffs| - 1]), diffs[|diffs| - 1], oid);
    }
  }

  /** Placing: the shadow joins the back of the book as our order joins the back of the level. */
  lemma ShadowPlaced(st: SimState, b: Orders, key: Key, sz: Size, oid: int)
    requires Inv(st) && st.bound == Exact && Unique(b) && MatchesOrders(st.levels, b) && !Holds(b, oid)
    requires st.view.Some? && ShowsOrders(st.view.value, b)
    ensures key in Place(st, key, sz).levels
    ensures Shadows(Place(st, key, sz).levels[key].queue, st.nextId, key, Order(oid, key, sz), b, [])
  {
    PlaceMatchesOrders(st, b, key, sz);
    var q := Joined(st, key).queue;
    SeedErased(OrdersAt(st.view.value.orders.value, key));
    SeedLaw(st.bound, st.view, key, st.nextId, st.nextId);
    assert key in st.levels ==> LevelOk(st.bound, st.levels[key], st.nextId);
    AscendingBounds(q, 0, st.nextId, st.nextId);
    BeforeAppend(q, Own(st.nextId, sz), st.nextId);
    assert b + [] == b;
  }

  /** Anything but its own placing: the shadow relation follows the run. */
  lemma ShadowStep(
      st: SimState, e: Event, id: int, o: Order, pre: Orders, post: Orders) returns (pre': Orders, post': Orders)
    requires Inv(st) && st.bound == Exact && id in st.registry && st.registry[id] in st.levels
    requires Shadows(st.levels[st.registry[id]].queue, id, st.registry[id], o, pre, post)
    requires e.BookUpdate? ==>
      e.batch.Some? && DiffsOk(pre + post, e.batch.value.diffs) && Untouched(e.batch.value.diffs, o.oid)
    requires id in Step(st, e).0.registry
    requires e.PlaceOrder? ==> MatchesOrders(Place(st, e.key, e.sz).levels, pre + post)
    ensures var st' := Step(st, e).0;
      st'.registry[id] == st.registry[id] && st.registry[id] in st'.levels &&
      Shadows(st'.levels[st.registry[id]].queue, id, st.registry[id], o, pre', post')
    ensures if e.BookUpdate? then
      ApplyAll(pre + post, e.batch.value.diffs) == pre' + post' &&
      ApplyAll(pre + [o] + post, e.batch.value.diffs) == pre' + [o] + post'
            else pre' == pre && post' == post
  {
    var k, st' := st.registry[id], Step(st, e).0;
    pre', post' := pre, post;
    StepAccount(st, e, id);
    StepKeepsInv(st, e);
    OpenSizeAt(st', id);
    assert LevelOk(st.bound, st.levels[k], st.nextId);
    match e
    case PlaceOrder(key, sz) => BeforeAppend(st.levels[k].queue, Own(st.nextId, sz), id);
    case CancelOrder(gone, _) =>
      WithoutOwnKeepsReal(st.levels[k].queue, gone, 0, st.nextId);
    case TradePrint(trade) =>
      OnTradeLaw(st, trade);
      PrintKeepsReal(st.levels[k], PrintOn(k, trade), 0, st.nextId);
    case BookUpdate(view, batch) =>
      var settled := st.(view := Some(view), lastHeight := Some(batch.value.height), levels := Settled(st.levels));
      pre', post' := ShadowDiffs(settled, id, k, o, pre, post, batch.value.diffs);
  }

  ghost predicate ShadowAt(
      st: SimState, b: Orders, shadow: Orders, id: int, oid: int, pre: Orders, post: Orders, sz: Size)
  {
    id in st.registry && st.registry[id] in st.levels && b == pre + post &&
    Shadows(st.levels[st.registry[id]].queue, id, st.registry[id], Order(oid, st.registry[id], sz), pre, post) &&
    shadow == pre + [Order(oid, st.registry[id], sz)] + post
  }

  /** All a step of a well-formed stream needs to know about the run before it. */
  lemma BeforeStep(coin: Coin, b0: Orders, es: seq<Event>, oid: int)
    requires es != [] && Unique(b0) && ExactStream(b0, es) && !Holds(b0, oid) && NeverNamed(es, oid)
    ensures var n := |es| - 1; var st, b := Run(Init(coin, Exact), es[..n]).0, BookAfter(b0, es[..n]);
      Inv(st) && st.bound == Exact && st.nextId == |Placements(es[..n])| + 1 && Unique(b) && !Holds(b, oid) &&
      MatchesOrders(st.levels, b) &&
      (es[n].PlaceOrder? ==> st.view.Some? && ShowsOrders(st.view.value, b)) &&
      (es[n].BookUpdate? ==>
         es[n].batch.Some? && DiffsOk(b, es[n].batch.value.diffs) && Untouched(es[n].batch.value.diffs, oid))
  {
    var n := |es| - 1;
    assert es[n] in es;
    RunInvariant(coin, Exact, es[..n]);
    BookAfterUnique(b0, es[..n]);
    TrackedLevelsAreTheBook(coin, b0, es[..n]);
    BookNeverHolds(b0, es[..n], oid);
    if es[n].PlaceOrder? { ViewShown(coin, b0, es[..n]); }
  }

  /** Placing adds the order to the registry and a shadow of it to the back of the book. */
  lemma PlaceEvent(coin: Coin, b0: Orders, es: seq<Event>, oid: int)
    requires es != [] && es[|es| - 1].PlaceOrder?
    ensures var n, id := |es| - 1, |Placements(es)|; var e, b := es[n], BookAfter(b0, es[..n]);
      Run(Init(coin, Exact), es).0 == Place(Run(Init(coin, Exact), es[..n]).0, e.key, e.sz) &&
      id == |Placements(es[..n])| + 1 &&
      BookAfter(b0, es) == b && ShadowBook(b0, es, id, oid) == b + [Order(oid, e.key, e.sz)]
  {
    hide Place, Apply;
  }

  lemma PlaceRegisters(st: SimState, key: Key, sz: Size)
    ensures Place(st, key, sz).registry == st.registry[st.nextId := key]
  {
    hide Joined, SeedBlind;
  }

  lemma ShadowBegins(coin: Coin, b0: Orders, es: seq<Event>, oid: int)
    requires es != [] && Unique(b0) && ExactStream(b0, es) && !Holds(b0, oid) && NeverNamed(es, oid)
    requires es[|es| - 1].PlaceOrder?
    ensures var id := |Placements(es)|;
      ShadowAt(Run(Init(coin, Exact), es).0, BookAfter(b0, es), ShadowBook(b0, es, id, oid), id, oid,
        BookAfter(b0, es[..|es| - 1]), [], es[|es| - 1].sz)
  {
    hide MatchesOrders, ShowsOrders, Shadows, Inv, Run, Place, BookAfter, ShadowBook, Placements;
    var n := |es| - 1;
    var st, b, e := Run(Init(coin, Exact), es[..n]).0, BookAfter(b0, es[..n]), es[n];
    BeforeStep(coin, b0, es, oid);
    PlaceEvent(coin, b0, es, oid);
    PlaceRegisters(st, e.key, e.sz);
    ShadowPlaced(st, b, e.key, e.sz, oid);
    assert b + [] == b && b + [Order(oid, e.key, e.sz)] + [] == b + [Order(oid, e.key, e.sz)];
  }

  lemma ShadowContinues(coin: Coin, b0: Orders, es: seq<Event>, id: int, oid: int, pre: Orders, post: Orders, sz: Size)
    returns (pre': Orders, post': Orders)
    requires es != [] && Unique(b0) && ExactStream(b0, es) && !Holds(b0, oid) && NeverNamed(es, oid)
    requires var before := es[..|es| - 1];
      ShadowAt(Run(Init(coin, Exact), before).0, BookAfter(b0, before), ShadowBook(b0, before, id, oid), id, oid, pre,
        post, sz)
    requires id in Run(Init(coin, Exact), es).0.registry && !(es[|es| - 1].PlaceOrder? && |Placements(es)| == id)
    ensures ShadowAt(Run(Init(coin, Exact), es).0, BookAfter(b0, es), ShadowBook(b0, es, id, oid), id, oid, pre',
      post', sz)
  {
    hide MatchesOrders, ShowsOrders, Shadows, Inv, Step;
    var n := |es| - 1;
    var st, e := Run(Init(coin, Exact), es[..n]).0, es[n];
    BeforeStep(coin, b0, es, oid);
    if e.PlaceOrder? { PlaceMatchesOrders(st, pre + post, e.key, e.sz); }
    pre', post' := ShadowStep(st, e, id, Order(oid, st.registry[id], sz), pre, post);
  }

  lemma {:induction false} ShadowRun(coin: Coin, b0: Orders, es: seq<Event>, id: int, oid: int)
    returns (pre: Orders, post: Orders, sz: Size)
    requires Unique(b0) && ExactStream(b0, es) && !Holds(b0, oid) && NeverNamed(es, oid)
    requires id in Run(Init(coin, Exact), es).0.registry
    ensures ShadowAt(Run(Init(coin, Exact), es).0, BookAfter(b0, es), ShadowBook(b0, es, id, oid), id, oid, pre, post,
      sz)
  {
    hide ShadowAt, Step, BookAfter, ShadowBook;
    assert es != [];
    var n := |es| - 1;
    var st, e := Run(Init(coin, Exact), es[..n]).0, es[n];
    BeforeStep(coin, b0, es, oid);
    StepAccount(st, e, id);
    if e.PlaceOrder? && |Placements(es)| == id {
      ShadowBegins(coin, b0, es, oid);
      pre, post, sz := BookAfter(b0, es[..n]), [], e.sz;
    } else {
      pre, post, sz := ShadowRun(coin, b0, es[..n], id, oid);
      pre, post := ShadowContinues(coin, b0, es, id, oid, pre, post, sz);
    }
  }

  lemma {:induction false} BeforeSums(q: Queue, id: int)
    requires Named(q)
    ensures RealBefore(q, id) == SumSizes(ErasedBefore(q, id))
  {
    if q != [] { BeforeSums(q[1..], id); }
  }

  lemma {:induction false} AheadLessConsumed(q: Queue, consumed: Size, id: int)
    ensures RealAhead(q, consumed, id) == Max(0.0, RealBefore(q, id) - consumed)
  {
    if q != [] { AheadLessConsumed(q[1..], if q[0].Own? then consumed else consumed - Min(q[0].sz, consumed), id); }
  }

  lemma {:induction false} AheadOfSplit(pre: Orders, o: Order, post: Orders)
    requires !Holds(pre, o.oid)
    ensures AheadOf(LevelOf(pre + [o] + post, o.key), o.oid) == LevelOf(pre, o.key)
  {
    if pre == [] { assert pre + [o] + post == [o] + post && ([o] + post)[1..] == post; } else {
      assert (pre + [o] + post)[1..] == pre[1..] + [o] + post;
      AheadOfSplit(pre[1..], o, post);
    }
  }

  /** No print of the block has walked past real volume yet. */
  ghost predicate NothingConsumed(st: SimState) {
    forall k :: k in st.levels ==> st.levels[k].consumed == 0.0
  }

  lemma {:induction false} DiffsKeepSettled(st: SimState, diffs: seq<BookDiff>)
    requires NothingConsumed(st)
    ensures NothingConsumed(ApplyDiffs(st, diffs))
  {
    if diffs != [] {
      DiffsKeepSettled(st, diffs[..|diffs| - 1]);
      ApplyDiffLevels(ApplyDiffs(st, diffs[..|diffs| - 1]), diffs[|diffs| - 1]);
    }
  }

  lemma SettledAfterBook(coin: Coin, es: seq<Event>)
    requires es != [] && es[|es| - 1].BookUpdate? && es[|es| - 1].batch.Some?
    ensures NothingConsumed(Run(Init(coin, Exact), es).0)
  {
    var n := |es| - 1;
    var st := Run(Init(coin, Exact), es[..n]).0;
    RunInvariant(coin, Exact, es[..n]);
    DiffsKeepSettled(st.(view := Some(es[n].view), lastHeight := Some(es[n].batch.value.height),
      levels := Settled(st.levels)), es[n].batch.value.diffs);
  }

  /**
   * Queue-ahead is ground truth: it is the size ahead a real order placed at the same moment would have in the
   * book, less what this block's prints already consumed, and nothing is consumed right after a book.
   */
  lemma QueueAheadIsAPosition(coin: Coin, b0: Orders, es: seq<Event>, id: int, oid: int)
    requires Unique(b0) && ExactStream(b0, es) && !Holds(b0, oid) && NeverNamed(es, oid)
    requires id in Run(Init(coin, Exact), es).0.registry
    ensures var st := Run(Init(coin, Exact), es).0;
      var k := st.registry[id];
      var position := SumSizes(AheadOf(LevelOf(ShadowBook(b0, es, id, oid), k), oid));
      k in st.levels && QueueAhead(st, id) == Some(Max(0.0, position - st.levels[k].consumed)) &&
      (es[|es| - 1].BookUpdate? ==> st.levels[k].consumed == 0.0)
  {
    hide Run, ShadowBook, BookAfter;
    var st := Run(Init(coin, Exact), es).0;
    var k := st.registry[id];
    var pre, post, sz := ShadowRun(coin, b0, es, id, oid);
    HoldsAppend(pre, post, oid);
    AheadOfSplit(pre, Order(oid, k, sz), post);
    BeforeSums(st.levels[k].queue, id);
    AheadLessConsumed(st.levels[k].queue, st.levels[k].consumed, id);
    EmptyRun(coin, es, id);
    if es[|es| - 1].BookUpdate? { SettledAfterBook(coin, es); }
  }

  lemma EmptyRun(coin: Coin, es: seq<Event>, id: int)
    ensures id in Run(Init(coin, Exact), es).0.registry ==> es != []
  {}
}
