/**
 * The floor fails for real queues once a resting order grows where it stands: a checked stream after which one print
 * fills our order under PESSIMISTIC and not in the real queue.
 */
module GrowthCounterexample {
  import opened Schemas
  import opened Fifo
  import opened OrderList
  import opened QueueState
  import opened QueueInvariant
  import opened Bracket
  import opened ExactRuns
  import opened BlockPrints
  import F = Floor
  import opened ExactEdges
  import opened ExactFloor

  const HERE := Key(Bid, 100)

  /** Order 7 alone on the book. */
  function Resting(size: Size): Orders {
    [Order(7, HERE, size)]
  }

  function View(size: Size): BookView {
    BookView([Row(100, size, 1)], [], Some(map[HERE := [(7, size)]]))
  }

  function Block(size: Size, diffs: seq<BookDiff>): Event {
    BookUpdate(View(size), Some(BlockDiffBatch(0, 0, diffs)))
  }

  const GROWS := BookDiff(7, "COIN", HERE, Update(None, Some(20.0)))
  const QUOTE := PlaceOrder(HERE, 10.0)

  /** Order 7 shows 5; we quote 10 behind it; order 7 grows to 20 in place. */
  const QUOTED: seq<Event> := [Block(5.0, []), QUOTE]
  const GROWN := Block(20.0, [GROWS])

  // ---------- a well-formed stream ----------

  lemma DepthOne(size: Size)
    ensures DepthMap([Row(100, size, 1)]) == map[100 := size] && DepthMap([]) == map[]
  {
    assert [Row(100, size, 1)][..0] == [];
  }

  lemma LevelOne(size: Size, k: Key)
    ensures LevelOf(Resting(size), k) == if k == HERE then [(7, size)] else []
    ensures SumSizes(LevelOf(Resting(size), k)) == if k == HERE then size else 0.0
  {
    assert Resting(size)[1..] == [] && [(7, size)][1..] == [];
  }

  lemma Shown(size: Size)
    ensures ShowsOrders(View(size), Resting(size)) && ShowsSizes(View(size), Resting(size))
  {
    hide DepthMap, LevelOf, SumSizes;
    DepthOne(size);
    forall k
      ensures OrdersAt(View(size).orders.value, k) == LevelOf(Resting(size), k)
      ensures VisibleIn(View(size), k) == SumSizes(LevelOf(Resting(size), k))
    {
      LevelOne(size, k);
    }
  }

  lemma StreamSnoc(b0: Orders, es: seq<Event>, size: Size, diffs: seq<BookDiff>)
    requires ExactStream(b0, es) && SizedStream(b0, es) && DiffsOk(BookAfter(b0, es), diffs)
    requires BookAfter(b0, es + [Block(size, diffs)]) == Resting(size)
    ensures ExactStream(b0, es + [Block(size, diffs)]) && SizedStream(b0, es + [Block(size, diffs)])
  {
    hide ShowsOrders, ShowsSizes, DiffsOk, Resting, View, BookAfter;
    Shown(size);
    assert (es + [Block(size, diffs)])[..|es|] == es;
  }

  lemma Prefixes()
    ensures QUOTED[..0] == [] && QUOTED[..1] == [] + [Block(5.0, [])] && QUOTED == QUOTED[..1] + [QUOTE]
    ensures |QUOTED| == 2 && QUOTED[0] == Block(5.0, []) && QUOTED[1] == QUOTE
    ensures [Block(5.0, [])][..0] == []
  {}

  lemma BookIs()
    ensures BookAfter(Resting(5.0), QUOTED[..1]) == Resting(5.0) && BookAfter(Resting(5.0), QUOTED) == Resting(5.0)
    ensures BookAfter(Resting(5.0), QUOTED + [GROWN]) == Resting(20.0)
  {
    hide Resting, View;
    Prefixes();
    assert ApplyAll(Resting(5.0), []) == Resting(5.0);
    assert (QUOTED + [GROWN])[..2] == QUOTED;
    assert [GROWS][..0] == [];
    assert Resized(Resting(5.0), 7, 20.0) == Resting(20.0) by { GrowthIs(); }
  }

  lemma GrowthIs()
    ensures Resized(Resting(5.0), 7, 20.0) == Resting(20.0)
  {
    assert Resting(5.0)[1..] == [];
  }

  lemma DiffsAreOk()
    ensures DiffsOk(Resting(5.0), []) && DiffsOk(Resting(5.0), [GROWS]) && Unique(Resting(5.0))
  {
    assert [GROWS][..0] == [] && Resting(5.0)[1..] == [];
  }

  lemma IsAFeed()
    ensures Feed(Resting(5.0), QUOTED + [GROWN])
  {
    hide BookAfter, ShowsOrders, ShowsSizes, DiffsOk, Unique, Resting, View, Block;
    var b0 := Resting(5.0);
    Prefixes();
    BookIs();
    DiffsAreOk();
    NoBook(b0);
    StreamSnoc(b0, [], 5.0, []);
    QuoteSnoc(b0);
    StreamSnoc(b0, QUOTED, 20.0, [GROWS]);
    Places();
  }

  lemma NoBook(b0: Orders)
    ensures ExactStream(b0, []) && SizedStream(b0, []) && BookAfter(b0, []) == b0
  {}

  lemma QuoteSnoc(b0: Orders)
    requires ExactStream(b0, QUOTED[..1]) && SizedStream(b0, QUOTED[..1])
    ensures ExactStream(b0, QUOTED) && SizedStream(b0, QUOTED)
  {
    hide BookAfter, ShowsOrders, ShowsSizes, DiffsOk;
    Prefixes();
    assert SeenBook(QUOTED[..1]);
  }

  lemma Places()
    ensures PlacesAfterBooks(QUOTED + [GROWN])
  {
    Prefixes();
    assert (QUOTED + [GROWN])[..2] == QUOTED;
    assert BookIsLatest(QUOTED[..1]) && PlacesAfterBooks(QUOTED[..1]);
  }

  // ---------- the levels ----------

  lemma FirstBlock()
    ensures var x, p := StateX("COIN", QUOTED[..1]), StateP("COIN", QUOTED[..1]);
      && x.levels == map[] && x.view == Some(View(5.0)) && x.nextId == 1 && x.bound == Exact
      && p.levels == map[] && p.view == Some(View(5.0)) && p.nextId == 1 && p.bound == Pessimistic
  {
    Prefixes();
    StateSnoc("COIN", [], Block(5.0, []));
    assert ApplyDiffs(Init("COIN", Exact).(view := Some(View(5.0)), lastHeight := Some(0)), []).levels == map[];
  }

  lemma Placed()
    ensures StateX("COIN", QUOTED).levels == map[HERE := LevelState([Real(Some(7), 5.0), Own(1, 10.0)], 0.0)]
    ensures StateP("COIN", QUOTED).levels == map[HERE := LevelState([Real(None, 5.0), Own(1, 10.0)], 0.0)]
  {
    hide Run;
    Prefixes();
    FirstBlock();
    StateSnoc("COIN", QUOTED[..1], QUOTE);
    assert View(5.0).Rows(Bid)[..0] == [];
    assert VisibleIn(View(5.0), HERE) == 5.0;
    assert [(7, 5.0)][1..] == [];
    assert RealSegments([(7, 5.0)]) == [Real(Some(7), 5.0)];
    assert [Real(Some(7), 5.0)] + [Own(1, 10.0)] == [Real(Some(7), 5.0), Own(1, 10.0)];
    assert [Real(None, 5.0)] + [Own(1, 10.0)] == [Real(None, 5.0), Own(1, 10.0)];
  }

  lemma Grown(x: SimState)
    requires x.bound == Exact && x.levels == map[HERE := LevelState([Real(Some(7), 5.0), Own(1, 10.0)], 0.0)]
    ensures OnBook(x, View(20.0), GROWN.batch).levels ==
            map[HERE := LevelState([Real(Some(7), 20.0), Own(1, 10.0)], 0.0)]
  {
    var q := [Real(Some(7), 5.0), Own(1, 10.0)];
    assert [GROWS][..0] == [];
    assert q[1..] == [Own(1, 10.0)] && HasOid(q, 7);
    assert ResizeOid(q, 7, 20.0) == [Real(Some(7), 20.0)] + [Own(1, 10.0)] == [Real(Some(7), 20.0), Own(1, 10.0)];
    var st := x.(view := Some(View(20.0)), lastHeight := Some(0), levels := Settled(x.levels));
    assert st.levels == x.levels;
    assert ApplyDiffs(st, []) == st;
  }

  lemma Reads(ahead: Segment)
    requires ahead.Real?
    ensures var q := [ahead, Own(1, 10.0)];
      RealBefore(q, 1) == ahead.sz && OwnAhead(q, 1) == 0.0 && Remaining(q, 1) == 10.0
  {
    var q := [ahead, Own(1, 10.0)];
    assert q[1..] == [Own(1, 10.0)];
    assert RealBefore(q[1..], 1) == 0.0 && OwnAhead(q[1..], 1) == 0.0 && Remaining(q[1..], 1) == 10.0;
  }

  lemma GrowthIsUnsafe()
    ensures !SafeNext("COIN", QUOTED, GROWN)
  {
    hide Run, OnBook, RealBefore, OwnAhead, Remaining;
    var x, p := StateX("COIN", QUOTED), StateP("COIN", QUOTED);
    Placed();
    RunInvariant("COIN", Exact, QUOTED);
    Grown(x);
    Reads(Real(Some(7), 5.0));
    Reads(Real(Some(7), 20.0));
    Reads(Real(None, 5.0));
    var q' := OnBook(x, View(20.0), GROWN.batch).levels[HERE].queue;
    assert VisibleIn(View(20.0), HERE) == 20.0 by { assert View(20.0).Rows(Bid)[..0] == []; }
    assert !EdgeStaysSettled(x.levels[HERE].queue, q', p.levels[HERE].queue, 20.0, 1);
    assert !SettleSafe(x.levels[HERE].queue, q', p.levels[HERE].queue, 20.0);
  }

  lemma QuotedIsSafe()
    ensures SafeStream("COIN", QUOTED)
  {
    Prefixes();
    QuietIsSafe("COIN", QUOTED[..1], QUOTE);
    assert StateX("COIN", []).levels == map[];
    assert SafeNext("COIN", [], Block(5.0, []));
    assert SafeStream("COIN", QUOTED[..1]);
  }

  /** Up to the growth the floor stands; from there one print fills our order more under PESSIMISTIC. */
  lemma GrowthBreaksTheFloor() returns (after: Event)
    ensures Feed(Resting(5.0), QUOTED + [GROWN]) && F.Ordered("COIN", Exact, Pessimistic, QUOTED)
    ensures after.TradePrint? && !F.Ordered("COIN", Exact, Pessimistic, QUOTED + [GROWN] + [after])
  {
    hide Feed, F.Ordered, SafeNext, SafeStream, EdgesAfter;
    IsAFeed();
    FeedSnoc(Resting(5.0), QUOTED, GROWN);
    QuotedIsSafe();
    GrowthIsUnsafe();
    SafeIsAFloor("COIN", Resting(5.0), QUOTED);
    SafeKeepsEdges("COIN", Resting(5.0), QUOTED);
    after := UnsafeIsNoFloor("COIN", Resting(5.0), QUOTED, GROWN);
  }
}
