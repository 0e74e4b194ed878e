/**
 * PESSIMISTIC as a floor for real queues. Over one well-formed block stream, of which PESSIMISTIC reads the sizes
 * and EXACT the diffs, no order is filled more under PESSIMISTIC, exactly as long as no cancel and no block upsets
 * the back edges; in particular as long as no block raises an open order's true queue-ahead.
 */
module ExactFloor {
  import opened Schemas
  import opened Fifo
  import opened OrderList
  import opened QueueState
  import opened QueueInvariant
  import opened Bracket
  import opened ExactMode
  import opened ExactRuns
  import opened BlockPrints
  import opened Edges
  import opened Floor
  import opened ExactEdges
  import BookState
  import L2

  // ---------- streams that show orders and sizes ----------

  /** A view shows at every price the size that rests there. */
  ghost predicate ShowsSizes(view: BookView, b: Orders) {
    forall k :: VisibleIn(view, k) == SumSizes(LevelOf(b, k))
  }

  /** An order-level book's own view does. */
  lemma OwnViewShowsSizes(b: Orders)
    ensures ShowsSizes(BookState.ViewOf(b), b)
  {
    forall k ensures VisibleIn(BookState.ViewOf(b), k) == SumSizes(LevelOf(b, k)) { L2.VisibleIsTheLevel(b, k); }
  }

  ghost predicate SizedStream(b0: Orders, es: seq<Event>) {
    es == [] ||
    (SizedStream(b0, es[..|es| - 1]) &&
     (es[|es| - 1].BookUpdate? ==> ShowsSizes(es[|es| - 1].view, BookAfter(b0, es))))
  }

  /** A stream both simulators can read, with orders placed between blocks. */
  ghost predicate Feed(b0: Orders, es: seq<Event>) {
    Unique(b0) && ExactStream(b0, es) && SizedStream(b0, es) && PlacesAfterBooks(es)
  }

  lemma FeedPrefix(b0: Orders, es: seq<Event>)
    requires Feed(b0, es) && es != []
    ensures Feed(b0, es[..|es| - 1])
  {}

  lemma FeedPrint(b0: Orders, es: seq<Event>, trade: Trade)
    requires Feed(b0, es)
    ensures Feed(b0, es + [TradePrint(trade)])
  {
    assert (es + [TradePrint(trade)])[..|es|] == es;
  }

  // ---------- the EXACT simulator right after a block ----------

  lemma {:induction false} SettledNow(coin: Coin, b0: Orders, es: seq<Event>)
    requires ExactStream(b0, es) && SeenBook(es) && BookIsLatest(es)
    ensures NothingConsumed(StateX(coin, es))
  {
    var n := |es| - 1;
    RunInvariant(coin, Exact, es[..n]);
    match es[n]
    case BookUpdate(_, _) => SettledAfterBook(coin, es);
    case TradePrint(_) =>
    case PlaceOrder(_, _) => SettledNow(coin, b0, es[..n]);
    case CancelOrder(_, _) => SettledNow(coin, b0, es[..n]);
  }

  lemma {:induction false} SizesShown(coin: Coin, b0: Orders, es: seq<Event>)
    requires ExactStream(b0, es) && SizedStream(b0, es) && SeenBook(es)
    ensures StateX(coin, es).view.Some? && ShowsSizes(StateX(coin, es).view.value, BookAfter(b0, es))
  {
    var n := |es| - 1;
    RunInvariant(coin, Exact, es[..n]);
    match es[n]
    case BookUpdate(view, batch) => OnBookLaw(StateX(coin, es[..n]), view, batch);
    case TradePrint(trade) =>
      SizesShown(coin, b0, es[..n]);
      OnTradeLaw(StateX(coin, es[..n]), trade);
    case _ => SizesShown(coin, b0, es[..n]);
  }

  function StateX(coin: Coin, es: seq<Event>): SimState {
    Run(Init(coin, Exact), es).0
  }

  function StateP(coin: Coin, es: seq<Event>): SimState {
    Run(Init(coin, Pessimistic), es).0
  }

  lemma TrackedSizes(coin: Coin, b0: Orders, es: seq<Event>, k: Key)
    requires Unique(b0) && ExactStream(b0, es) && k in StateX(coin, es).levels
    ensures RealSize(StateX(coin, es).levels[k].queue) == SumSizes(LevelOf(BookAfter(b0, es), k))
  {
    hide Run, BookAfter, ExactStream;
    TrackedLevelsAreTheBook(coin, b0, es);
    ErasedSize(StateX(coin, es).levels[k].queue);
  }

  lemma SeedSizes(st: SimState, b: Orders, k: Key)
    requires st.bound == Exact && st.view.Some? && ShowsOrders(st.view.value, b) && k !in st.levels
    ensures RealSize(Joined(st, k).queue) == SumSizes(LevelOf(b, k))
  {
    SeedErased(LevelOf(b, k));
    ErasedSize(RealSegments(LevelOf(b, k)));
  }

  lemma SettledOnNow(coin: Coin, b0: Orders, es: seq<Event>)
    requires Feed(b0, es) && SeenBook(es) && BookIsLatest(es)
    ensures SettledOn(StateX(coin, es))
  {
    hide Run, ExactStream, SizedStream, PlacesAfterBooks, BookAfter, RealSize, SumSizes, LevelOf;
    SettledNow(coin, b0, es);
    SizesShown(coin, b0, es);
    ViewShown(coin, b0, es);
    RunInvariant(coin, Exact, es);
    var st := StateX(coin, es);
    forall k ensures RealSize(Joined(st, k).queue) == Visible(st.view, k) {
      if k in st.levels { TrackedSizes(coin, b0, es, k); } else { SeedSizes(st, BookAfter(b0, es), k); }
    }
  }

  // ---------- safe streams ----------

  ghost predicate Safe(x: SimState, p: SimState, e: Event) {
    match e
    case CancelOrder(id, _) => CancelSafe(Twin(x), p, id)
    case BookUpdate(view, batch) => BlockSafe(x, p, view, batch)
    case _ => true
  }

  ghost predicate SafeNext(coin: Coin, es: seq<Event>, e: Event) {
    Safe(StateX(coin, es), StateP(coin, es), e)
  }

  /** Every cancel and every block of a stream is safe where it comes. */
  ghost predicate SafeStream(coin: Coin, es: seq<Event>) {
    es == [] || (SafeStream(coin, es[..|es| - 1]) && SafeNext(coin, es[..|es| - 1], es[|es| - 1]))
  }

  ghost predicate EdgesAfter(coin: Coin, es: seq<Event>) {
    EdgesBelow(Twin(StateX(coin, es)), StateP(coin, es))
  }

  lemma Starts(coin: Coin)
    ensures EdgesAfter(coin, [])
  {}

  lemma TwinSetting(st: SimState)
    ensures var t := Twin(st); t.coin == st.coin && t.bound == Pessimistic && t.view == st.view && t.nextId == st.nextId
  {}

  lemma StateSnoc(coin: Coin, es: seq<Event>, e: Event)
    ensures StateX(coin, es + [e]) == Step(StateX(coin, es), e).0
    ensures StateP(coin, es + [e]) == Step(StateP(coin, es), e).0
  {
    hide Step, Run;
    Floor.RunSnoc(Init(coin, Exact), es, e);
    Floor.RunSnoc(Init(coin, Pessimistic), es, e);
  }

  lemma PlaceEvent(coin: Coin, b0: Orders, es: seq<Event>, key: Key, sz: Size)
    requires Feed(b0, es + [PlaceOrder(key, sz)]) && EdgesAfter(coin, es)
    ensures EdgesAfter(coin, es + [PlaceOrder(key, sz)])
  {
    hide EdgesBelow, Inv, Run, Place, Twin, SettledOn, MatchesView;
    assert (es + [PlaceOrder(key, sz)])[..|es|] == es;
    RunInvariant(coin, Exact, es);
    RunInvariant(coin, Pessimistic, es);
    SettledOnNow(coin, b0, es);
    RunMatchesView(coin, Pessimistic, es);
    PlaceKeepsTwin(StateX(coin, es), StateP(coin, es), key, sz);
    StateSnoc(coin, es, PlaceOrder(key, sz));
  }

  lemma CancelEvent(coin: Coin, es: seq<Event>, id: int, stale: bool)
    requires EdgesAfter(coin, es)
    ensures EdgesAfter(coin, es + [CancelOrder(id, stale)]) <==> SafeNext(coin, es, CancelOrder(id, stale))
  {
    hide EdgesBelow, Inv, Run, Cancel, Twin, CancelSafe;
    RunInvariant(coin, Exact, es);
    RunInvariant(coin, Pessimistic, es);
    TwinInv(StateX(coin, es));
    TwinCancel(StateX(coin, es), id, stale);
    CancelKeepsEdgesIff(Twin(StateX(coin, es)), StateP(coin, es), id, stale);
    StateSnoc(coin, es, CancelOrder(id, stale));
  }

  lemma PrintEvent(coin: Coin, es: seq<Event>, trade: Trade)
    requires EdgesAfter(coin, es)
    ensures EdgesAfter(coin, es + [TradePrint(trade)])
  {
    hide EdgesBelow, Inv, Run, OnTrade, Twin;
    RunInvariant(coin, Exact, es);
    RunInvariant(coin, Pessimistic, es);
    TwinInv(StateX(coin, es));
    TwinSetting(StateX(coin, es));
    TwinOnTrade(StateX(coin, es), trade);
    PrintKeepsEdges(Twin(StateX(coin, es)), StateP(coin, es), trade);
    StateSnoc(coin, es, TradePrint(trade));
  }

  lemma BlockSettles(coin: Coin, es: seq<Event>, view: BookView, batch: Option<BlockDiffBatch>)
    requires batch.Some?
    ensures NothingConsumed(OnBook(StateX(coin, es), view, batch))
  {
    hide Run, OnBook;
    var longer := es + [BookUpdate(view, batch)];
    assert longer[..|es|] == es;
    StateSnoc(coin, es, BookUpdate(view, batch));
    SettledAfterBook(coin, longer);
  }

  lemma BlockEvent(coin: Coin, es: seq<Event>, view: BookView, batch: Option<BlockDiffBatch>)
    requires EdgesAfter(coin, es) && batch.Some?
    ensures EdgesAfter(coin, es + [BookUpdate(view, batch)]) <==> SafeNext(coin, es, BookUpdate(view, batch))
  {
    hide EdgesBelow, Inv, Run, OnBook, Twin, BlockSafe;
    RunInvariant(coin, Exact, es);
    RunInvariant(coin, Pessimistic, es);
    BlockSettles(coin, es, view, batch);
    BlockKeepsEdgesIff(StateX(coin, es), StateP(coin, es), view, batch);
    StateSnoc(coin, es, BookUpdate(view, batch));
  }

  /** One event of a stream keeps the simulators in order exactly when it is safe. */
  lemma EventKeepsEdges(coin: Coin, b0: Orders, es: seq<Event>, e: Event)
    requires Feed(b0, es + [e]) && EdgesAfter(coin, es)
    ensures EdgesAfter(coin, es + [e]) <==> SafeNext(coin, es, e)
  {
    hide EdgesAfter, Run, StateX, StateP, CancelSafe, BlockSafe;
    match e {
      case PlaceOrder(key, sz) => PlaceEvent(coin, b0, es, key, sz);
      case CancelOrder(id, stale) => CancelEvent(coin, es, id, stale);
      case TradePrint(trade) => PrintEvent(coin, es, trade);
      case BookUpdate(view, batch) =>
        assert (es + [e])[|es|] == e;
        BlockEvent(coin, es, view, batch);
    }
  }

  lemma {:induction false} SafeKeepsEdges(coin: Coin, b0: Orders, es: seq<Event>)
    requires Feed(b0, es) && SafeStream(coin, es)
    ensures EdgesAfter(coin, es)
  {
    hide EdgesAfter, SafeNext, Feed;
    if es == [] {
      Starts(coin);
    } else {
      var n := |es| - 1;
      FeedPrefix(b0, es);
      SafeKeepsEdges(coin, b0, es[..n]);
      assert es[..n] + [es[n]] == es;
      EventKeepsEdges(coin, b0, es[..n], es[n]);
    }
  }

  lemma EdgesOrder(coin: Coin, b0: Orders, es: seq<Event>, id: int)
    requires Feed(b0, es) && SafeStream(coin, es)
    ensures NoMoreLeft(StateX(coin, es), StateP(coin, es), id)
  {
    hide SafeStream, Run, EdgesBelow, Inv, Feed, OpenSize;
    SafeKeepsEdges(coin, b0, es);
    RunInvariant(coin, Exact, es);
    RunInvariant(coin, Pessimistic, es);
    TwinInv(StateX(coin, es));
    TwinOpen(StateX(coin, es), id);
    RegisteredEdges(Twin(StateX(coin, es)), StateP(coin, es), id);
  }

  lemma {:induction false} SafePrefix(coin: Coin, b0: Orders, es: seq<Event>, n: nat)
    requires n <= |es| && SafeStream(coin, es) && Feed(b0, es)
    ensures SafeStream(coin, es[..n]) && Feed(b0, es[..n])
  {
    hide SafeNext, Feed;
    if n == |es| {
      assert es[..n] == es;
    } else {
      var m := |es| - 1;
      assert es[..m][..n] == es[..n];
      FeedPrefix(b0, es);
      SafePrefix(coin, b0, es[..m], n);
    }
  }

  /** Over a safe stream no order has more left, or has been filled less, under EXACT than under PESSIMISTIC. */
  lemma SafeIsAFloor(coin: Coin, b0: Orders, es: seq<Event>)
    requires Feed(b0, es) && SafeStream(coin, es)
    ensures Ordered(coin, Exact, Pessimistic, es)
  {
    hide SafeStream, Feed, Run, NoMoreLeft;
    forall id ensures OrderedAt(coin, Exact, Pessimistic, es, id) {
      forall n | 0 <= n <= |es|
        ensures NoMoreLeft(Run(Init(coin, Exact), es[..n]).0, Run(Init(coin, Pessimistic), es[..n]).0, id)
      {
        SafePrefix(coin, b0, es, n);
        EdgesOrder(coin, b0, es[..n], id);
      }
      assert es[..|es|] == es;
      LessLeftMoreFilled(coin, Exact, Pessimistic, es, id);
    }
  }

  // ---------- and only then ----------

  predicate Quiet(es: seq<Event>) {
    forall e :: e in es ==> e.PlaceOrder? || e.TradePrint?
  }

  /** The floor stands now and will, however the stream goes on until the next cancel or block. */
  ghost predicate FloorAhead(coin: Coin, b0: Orders, es: seq<Event>) {
    forall more: seq<Event> :: Quiet(more) && Feed(b0, es + more) ==> Ordered(coin, Exact, Pessimistic, es + more)
  }

  lemma SafeSnoc(coin: Coin, es: seq<Event>, e: Event)
    ensures SafeStream(coin, es + [e]) <==> SafeStream(coin, es) && SafeNext(coin, es, e)
  {
    hide SafeNext;
    assert (es + [e])[..|es|] == es;
  }

  lemma QuietIsSafe(coin: Coin, es: seq<Event>, e: Event)
    requires e.PlaceOrder? || e.TradePrint?
    ensures SafeNext(coin, es, e)
  {}

  lemma {:induction false} SafeContinues(coin: Coin, es: seq<Event>, more: seq<Event>)
    requires SafeStream(coin, es) && Quiet(more)
    ensures SafeStream(coin, es + more)
  {
    hide SafeStream, SafeNext;
    if more == [] {
      assert es + more == es;
    } else {
      var n := |more| - 1;
      assert more[n] in more;
      SafeContinues(coin, es, more[..n]);
      QuietIsSafe(coin, es + more[..n], more[n]);
      SafeSnoc(coin, es + more[..n], more[n]);
      assert es + more[..n] + [more[n]] == es + more;
    }
  }

  lemma SafeIsAFloorAhead(coin: Coin, b0: Orders, es: seq<Event>)
    requires SafeStream(coin, es)
    ensures FloorAhead(coin, b0, es)
  {
    hide Ordered, SafeStream, Feed, Quiet;
    forall more: seq<Event> | Quiet(more) && Feed(b0, es + more) ensures Ordered(coin, Exact, Pessimistic, es + more) {
      SafeContinues(coin, es, more);
      SafeIsAFloor(coin, b0, es + more);
    }
  }

  lemma UnsafeStep(coin: Coin, es: seq<Event>, e: Event) returns (trade: Trade, id: int)
    requires EdgesAfter(coin, es) && !SafeNext(coin, es, e) && (e.BookUpdate? ==> e.batch.Some?)
    ensures OpenSize(OnTrade(StateX(coin, es + [e]), trade).0, id) >
            OpenSize(OnTrade(StateP(coin, es + [e]), trade).0, id)
  {
    hide OnTrade, OpenSize, Cancel, OnBook, Run, EdgesBelow, Inv, CancelSafe, BlockSafe, Twin;
    var x, p := StateX(coin, es), StateP(coin, es);
    RunInvariant(coin, Exact, es);
    RunInvariant(coin, Pessimistic, es);
    StateSnoc(coin, es, e);
    if e.CancelOrder? {
      trade, id := UnsafePullBreaksIt(x, p, e.id, e.stale);
    } else {
      BlockSettles(coin, es, e.view, e.batch);
      trade, id := UnsafeBlockBreaksIt(x, p, e.view, e.batch);
    }
  }

  /** An unsafe cancel or block is followed by a print after which PESSIMISTIC is no floor. */
  lemma UnsafeIsNoFloor(coin: Coin, b0: Orders, es: seq<Event>, e: Event) returns (after: Event)
    requires Feed(b0, es + [e]) && EdgesAfter(coin, es) && !SafeNext(coin, es, e)
    ensures after.TradePrint? && !Ordered(coin, Exact, Pessimistic, es + [e] + [after])
  {
    hide EdgesAfter, SafeNext, Run, OnTrade, OpenSize;
    assert (es + [e])[|es|] == e;
    var trade, id := UnsafeStep(coin, es, e);
    after := TradePrint(trade);
    StateSnoc(coin, es + [e], after);
    assert !OrderedAt(coin, Exact, Pessimistic, es + [e] + [after], id);
  }

  lemma FeedSnoc(b0: Orders, es: seq<Event>, e: Event)
    requires Feed(b0, es + [e])
    ensures Feed(b0, es)
  {
    FeedPrefix(b0, es + [e]);
    assert (es + [e])[..|es|] == es;
  }

  /** The exact condition for one cancel or block. */
  lemma EventSafeIff(coin: Coin, b0: Orders, es: seq<Event>, e: Event)
    requires Feed(b0, es + [e]) && SafeStream(coin, es) && !Quiet([e])
    ensures FloorAhead(coin, b0, es + [e]) <==> SafeNext(coin, es, e)
  {
    hide SafeStream, SafeNext, Ordered, Feed;
    SafeSnoc(coin, es, e);
    if SafeNext(coin, es, e) {
      SafeIsAFloorAhead(coin, b0, es + [e]);
    } else {
      FeedSnoc(b0, es, e);
      SafeKeepsEdges(coin, b0, es);
      var after := UnsafeIsNoFloor(coin, b0, es, e);
      FeedPrint(b0, es + [e], after.trade);
      assert Quiet([after]);
    }
  }

  /** And for a whole stream: PESSIMISTIC stands as a floor from every step on if and only if every step is safe. */
  lemma {:induction false} FloorIffSafe(coin: Coin, b0: Orders, es: seq<Event>)
    requires Feed(b0, es)
    ensures SafeStream(coin, es) <==> forall n :: 0 <= n <= |es| ==> FloorAhead(coin, b0, es[..n])
  {
    hide FloorAhead, SafeNext, Feed;
    if es == [] {
      SafeIsAFloorAhead(coin, b0, []);
      assert es[..0] == [];
    } else {
      var m := |es| - 1;
      FeedPrefix(b0, es);
      FloorIffSafe(coin, b0, es[..m]);
      forall n | 0 <= n <= m ensures es[..m][..n] == es[..n] {}
      assert es[..|es|] == es == es[..m] + [es[m]];
      if SafeStream(coin, es[..m]) {
        if Quiet([es[m]]) {
          assert es[m] in [es[m]];
          QuietIsSafe(coin, es[..m], es[m]);
          SafeIsAFloorAhead(coin, b0, es);
        } else {
          EventSafeIff(coin, b0, es[..m], es[m]);
        }
      }
    }
  }

  // ---------- what a caller can look for ----------

  /** A cancel pulls the newest quote at its price or one filled as much in both runs. */
  ghost predicate HarmlessNext(coin: Coin, es: seq<Event>, e: Event) {
    && (e.CancelOrder? ==> Harmless(StateX(coin, es), StateP(coin, es), e.id))
    && (e.BookUpdate? ==> NoneRises(StateX(coin, es), OnBook(StateX(coin, es), e.view, e.batch)))
  }

  /** And no block raises the queue-ahead of an order it leaves open. */
  ghost predicate HarmlessStream(coin: Coin, es: seq<Event>) {
    es == [] || (HarmlessStream(coin, es[..|es| - 1]) && HarmlessNext(coin, es[..|es| - 1], es[|es| - 1]))
  }

  lemma HarmlessCancelIsSafe(coin: Coin, es: seq<Event>, id: int)
    requires EdgesAfter(coin, es) && Harmless(StateX(coin, es), StateP(coin, es), id)
    ensures CancelSafe(Twin(StateX(coin, es)), StateP(coin, es), id)
  {
    hide Run, EdgesBelow, Inv, OpenSize, NewestAtItsPrice, Twin, CancelSafe;
    RunInvariant(coin, Exact, es);
    RunInvariant(coin, Pessimistic, es);
    TwinInv(StateX(coin, es));
    TwinOpen(StateX(coin, es), id);
    HarmlessIsSafe(Twin(StateX(coin, es)), StateP(coin, es), id);
  }

  lemma BlockSizes(coin: Coin, b0: Orders, es: seq<Event>, e: Event, k: Key)
    requires Feed(b0, es + [e]) && e.BookUpdate? && k in OnBook(StateX(coin, es), e.view, e.batch).levels
    ensures RealSize(OnBook(StateX(coin, es), e.view, e.batch).levels[k].queue) == VisibleIn(e.view, k)
  {
    hide Run, OnBook, ExactStream, PlacesAfterBooks, BookAfter, RealSize, SumSizes, LevelOf;
    assert (es + [e])[|es|] == e;
    StateSnoc(coin, es, e);
    TrackedSizes(coin, b0, es + [e], k);
  }

  lemma HarmlessBlockIsSafe(coin: Coin, b0: Orders, es: seq<Event>, e: Event)
    requires Feed(b0, es + [e]) && EdgesAfter(coin, es) && e.BookUpdate?
    requires NoneRises(StateX(coin, es), OnBook(StateX(coin, es), e.view, e.batch))
    ensures BlockSafe(StateX(coin, es), StateP(coin, es), e.view, e.batch)
  {
    hide Run, OnBook, EdgesBelow, Inv, Twin, BlockSafe, NoneRises, RealSize, SizedStream, PlacesAfterBooks;
    assert (es + [e])[|es|] == e;
    RunInvariant(coin, Exact, es);
    RunInvariant(coin, Pessimistic, es);
    BlockSettles(coin, es, e.view, e.batch);
    forall k | k in OnBook(StateX(coin, es), e.view, e.batch).levels
      ensures RealSize(OnBook(StateX(coin, es), e.view, e.batch).levels[k].queue) == VisibleIn(e.view, k)
    {
      BlockSizes(coin, b0, es, e, k);
    }
    NoRiseIsSafe(StateX(coin, es), StateP(coin, es), e.view, e.batch);
  }

  lemma {:induction false} HarmlessIsSafeStream(coin: Coin, b0: Orders, es: seq<Event>)
    requires Feed(b0, es) && HarmlessStream(coin, es)
    ensures SafeStream(coin, es)
  {
    hide Feed, StateX, StateP, Harmless, NoneRises, CancelSafe, BlockSafe, EdgesAfter;
    if es != [] {
      var n := |es| - 1;
      FeedPrefix(b0, es);
      HarmlessIsSafeStream(coin, b0, es[..n]);
      SafeKeepsEdges(coin, b0, es[..n]);
      assert es[..n] + [es[n]] == es;
      if es[n].CancelOrder? { HarmlessCancelIsSafe(coin, es[..n], es[n].id); }
      if es[n].BookUpdate? { HarmlessBlockIsSafe(coin, b0, es[..n], es[n]); }
    }
  }

  /**
   * The genuine floor: while no block raises an open order's true queue-ahead and cancels are harmless, no order is
   * filled more under PESSIMISTIC than the real queue fills it.
   */
  lemma PessimisticIsAGenuineFloor(coin: Coin, b0: Orders, es: seq<Event>)
    requires Feed(b0, es) && HarmlessStream(coin, es)
    ensures Ordered(coin, Exact, Pessimistic, es)
  {
    hide Feed, HarmlessStream, SafeStream, Ordered;
    HarmlessIsSafeStream(coin, b0, es);
    SafeIsAFloor(coin, b0, es);
  }
}
