/**
 * OPTIMISTIC is no ceiling once a price is quoted twice: a checked run without cancels in which the PRORATA
 * simulator fills order 2 and the OPTIMISTIC one does not.
 */
module CeilingCounterexample {
  import opened Schemas
  import opened Fifo
  import opened QueueState
  import opened Bracket
  import opened Floor
  import opened OneLevel

  const AHEAD: Size := 600.0 / 67.0
  const BEHIND: Size := 70.0 / 67.0
  const ONE: Segment := Own(1, 10.0)
  const TWO: Segment := Own(2, 10.0)

  function R(size: Size): Segment {
    Real(None, size)
  }

  /**
   * Order 1 joins 30, another 70 come and 10 go, order 2 joins; a print of 30. The book then shows what OPTIMISTIC
   * still tracks and 7 more than PRORATA does, which joins behind order 2 there; a print of 10. The book shrinks
   * to 10, and while OPTIMISTIC leaves all of it ahead of order 2, PRORATA leaves its share behind.
   */
  const SCRIPT: seq<Event> := [
    Showing(30.0), PlaceOrder(HERE, 10.0), Showing(100.0), Showing(90.0), PlaceOrder(HERE, 10.0),
    Selling(30.0), Showing(70.0), Selling(10.0), Showing(10.0), Selling(10.0)]

  // ---------- the books ----------

  lemma FrontTaken()
    ensures RemoveFront([R(30.0), ONE, R(70.0)], 10.0) == [R(20.0), ONE, R(70.0)]
    ensures RemoveFront([R(60.0), TWO], 50.0) == [R(10.0), TWO]
  {
    assert [R(30.0), ONE, R(70.0)][1..] == [ONE, R(70.0)] && [ONE, R(70.0)][1..] == [R(70.0)];
    assert [R(60.0), TWO][1..] == [TWO];
    assert RemoveFront([R(70.0)], 0.0) == [R(70.0)] && RemoveFront([TWO], 0.0) == [TWO];
  }

  lemma ScaledDown()
    ensures Scale([R(30.0), ONE, R(70.0)], 0.9) == [R(27.0), ONE, R(63.0)]
    ensures Scale([R(60.0), TWO, R(7.0)], 10.0 / 67.0) == [R(AHEAD), TWO, R(BEHIND)]
  {
    assert [R(30.0), ONE, R(70.0)][1..] == [ONE, R(70.0)] && [ONE, R(70.0)][1..] == [R(70.0)];
    assert [R(60.0), TWO, R(7.0)][1..] == [TWO, R(7.0)] && [TWO, R(7.0)][1..] == [R(7.0)];
    assert Scale([R(70.0)], 0.9) == [R(63.0)] && Scale([R(7.0)], 10.0 / 67.0) == [R(BEHIND)];
  }

  /** Nothing is dropped while every real segment has size. */
  lemma {:induction false} NothingDropped(q: Queue)
    requires forall s :: s in q ==> s.sz > 0.0
    ensures DropEmptyReal(q) == q
  {
    if q != [] {
      NothingDropped(q[1..]);
    }
  }

  lemma RealOfTwo(a: Segment, b: Segment)
    ensures RealSize([a, b]) == (if a.Real? then a.sz else 0.0) + (if b.Real? then b.sz else 0.0)
  {
    assert [a, b][1..] == [b];
    assert RealSize([b]) == if b.Real? then b.sz else 0.0;
  }

  lemma RealOfThree(a: Segment, b: Segment, c: Segment)
    ensures RealSize([a, b, c]) == (if a.Real? then a.sz else 0.0) + RealSize([b, c])
  {
    assert [a, b, c][1..] == [b, c];
  }

  lemma OptimisticBooks()
    ensures Reconcile(Optimistic, [R(30.0), ONE], 100.0) == [R(30.0), ONE, R(70.0)]
    ensures Reconcile(Optimistic, [R(30.0), ONE, R(70.0)], 90.0) == [R(20.0), ONE, R(70.0)]
    ensures Reconcile(Optimistic, [R(70.0), TWO], 70.0) == [R(70.0), TWO]
    ensures Reconcile(Optimistic, [R(60.0), TWO], 10.0) == [R(10.0), TWO]
  {
    hide RealSize, RemoveFront, DropEmptyReal;
    RealOfTwo(R(30.0), ONE);
    RealOfTwo(ONE, R(70.0));
    RealOfThree(R(30.0), ONE, R(70.0));
    RealOfTwo(R(70.0), TWO);
    RealOfTwo(R(60.0), TWO);
    FrontTaken();
    NothingDropped([R(20.0), ONE, R(70.0)]);
    NothingDropped([R(10.0), TWO]);
    assert [R(30.0), ONE] + [R(70.0)] == [R(30.0), ONE, R(70.0)];
  }

  lemma ProRataBooks()
    ensures Reconcile(ProRata, [R(30.0), ONE], 100.0) == [R(30.0), ONE, R(70.0)]
    ensures Reconcile(ProRata, [R(30.0), ONE, R(70.0)], 90.0) == [R(27.0), ONE, R(63.0)]
    ensures Reconcile(ProRata, [Own(1, 7.0), R(63.0), TWO], 70.0) == [Own(1, 7.0), R(63.0), TWO, R(7.0)]
    ensures Reconcile(ProRata, [R(60.0), TWO, R(7.0)], 10.0) == [R(AHEAD), TWO, R(BEHIND)]
  {
    hide RealSize, Scale, DropEmptyReal;
    RealOfTwo(R(30.0), ONE);
    RealOfTwo(ONE, R(70.0));
    RealOfThree(R(30.0), ONE, R(70.0));
    RealOfTwo(R(63.0), TWO);
    RealOfThree(Own(1, 7.0), R(63.0), TWO);
    RealOfTwo(TWO, R(7.0));
    RealOfThree(R(60.0), TWO, R(7.0));
    ScaledDown();
    NothingDropped([R(27.0), ONE, R(63.0)]);
    NothingDropped([R(AHEAD), TWO, R(BEHIND)]);
    assert [R(30.0), ONE] + [R(70.0)] == [R(30.0), ONE, R(70.0)];
    assert [Own(1, 7.0), R(63.0), TWO] + [R(7.0)] == [Own(1, 7.0), R(63.0), TWO, R(7.0)];
    assert Survival(100.0, 10.0) == 0.9 && Survival(67.0, 57.0) == 10.0 / 67.0;
  }

  // ---------- the prints ----------

  lemma Tails(a: Segment, b: Segment, c: Segment, d: Segment)
    ensures [a, b, c, d][1..] == [b, c, d] && [b, c, d][1..] == [c, d] && [c, d][1..] == [d] && [d][1..] == []
  {}

  lemma OptimisticFirst()
    ensures Prints([R(20.0), ONE, R(70.0), TWO], 30.0, [R(70.0), TWO], {1}, 0.0)
  {
    hide Sweep, Emptied, Quoted;
    Tails(R(20.0), ONE, R(70.0), TWO);
    assert WalkAt(false, [ONE, R(70.0), TWO], 10.0, 0.0, 20.0) ==
           Walked([Own(1, 0.0), R(70.0), TWO], 0.0, [PartFill(1, 10.0, 20.0)]);
    assert WalkAt(false, [R(20.0), ONE, R(70.0), TWO], 30.0, 0.0, 0.0) ==
           Walked([R(0.0), Own(1, 0.0), R(70.0), TWO], 0.0, [PartFill(1, 10.0, 20.0)]);
    SweptTwo([R(0.0), Own(1, 0.0), R(70.0), TWO], [R(70.0), TWO], [R(70.0), TWO], {1});
    QuotedHere([R(70.0), TWO], 1);
  }

  /** The sweep of two segments in front of others that stay. */
  lemma SweptTwo(q: Queue, rest: Queue, after: Queue, gone: set<int>)
    requires |q| >= 2 && q[2..] == rest && forall s :: s in rest ==> s.sz > 0.0
    requires after == (if q[0].sz > 0.0 then [q[0]] else []) + ((if q[1].sz > 0.0 then [q[1]] else []) + rest)
    requires gone == (if q[0].Own? && q[0].sz <= 0.0 then {q[0].id} else {}) +
                     (if q[1].Own? && q[1].sz <= 0.0 then {q[1].id} else {})
    ensures Sweep(false, q) == after && Emptied(q) == gone
  {
    hide Sweep, Emptied;
    assert q == [q[0]] + ([q[1]] + rest);
    SweptCons(q[0], [q[1]] + rest);
    SweptCons(q[1], rest);
    SweptWhole(rest);
  }

  lemma OptimisticSecond()
    ensures Prints([R(70.0), TWO], 10.0, [R(60.0), TWO], {}, 0.0)
  {
    hide Sweep, Emptied, Quoted;
    Tails(TWO, TWO, R(70.0), TWO);
    assert WalkAt(false, [R(70.0), TWO], 10.0, 0.0, 0.0) == Walked([R(60.0), TWO], 0.0, []);
    SweptWhole([R(60.0), TWO]);
    QuotedHere([R(60.0), TWO], 1);
  }

  lemma OptimisticLast()
    ensures Prints([R(10.0), TWO], 10.0, [TWO], {}, 0.0)
  {
    hide Sweep, Emptied, Quoted;
    Tails(TWO, TWO, R(10.0), TWO);
    assert WalkAt(false, [R(10.0), TWO], 10.0, 0.0, 0.0) == Walked([R(0.0), TWO], 0.0, []);
    SweptTwo([R(0.0), TWO], [], [TWO], {});
    QuotedHere([TWO], 0);
  }

  lemma ProRataFirst()
    ensures Prints([R(27.0), ONE, R(63.0), TWO], 30.0, [Own(1, 7.0), R(63.0), TWO], {}, 0.0)
  {
    hide Sweep, Emptied, Quoted;
    Tails(R(27.0), ONE, R(63.0), TWO);
    assert WalkAt(false, [ONE, R(63.0), TWO], 3.0, 0.0, 27.0) ==
           Walked([Own(1, 7.0), R(63.0), TWO], 0.0, [PartFill(1, 3.0, 27.0)]);
    assert WalkAt(false, [R(27.0), ONE, R(63.0), TWO], 30.0, 0.0, 0.0) ==
           Walked([R(0.0), Own(1, 7.0), R(63.0), TWO], 0.0, [PartFill(1, 3.0, 27.0)]);
    SweptTwo([R(0.0), Own(1, 7.0), R(63.0), TWO], [R(63.0), TWO], [Own(1, 7.0), R(63.0), TWO], {});
    QuotedHere([Own(1, 7.0), R(63.0), TWO], 0);
  }

  lemma ProRataSecond()
    ensures Prints([Own(1, 7.0), R(63.0), TWO, R(7.0)], 10.0, [R(60.0), TWO, R(7.0)], {1}, 0.0)
  {
    hide Sweep, Emptied, Quoted;
    Tails(Own(1, 7.0), R(63.0), TWO, R(7.0));
    assert WalkAt(false, [R(63.0), TWO, R(7.0)], 3.0, 0.0, 0.0) == Walked([R(60.0), TWO, R(7.0)], 0.0, []);
    assert WalkAt(false, [Own(1, 7.0), R(63.0), TWO, R(7.0)], 10.0, 0.0, 0.0) ==
           Walked([Own(1, 0.0), R(60.0), TWO, R(7.0)], 0.0, [PartFill(1, 7.0, 0.0)]);
    SweptTwo([Own(1, 0.0), R(60.0), TWO, R(7.0)], [TWO, R(7.0)], [R(60.0), TWO, R(7.0)], {1});
    QuotedHere([R(60.0), TWO, R(7.0)], 1);
  }

  lemma ProRataLast()
    ensures Prints([R(AHEAD), TWO, R(BEHIND)], 10.0, [Own(2, AHEAD), R(BEHIND)], {}, BEHIND)
  {
    hide Sweep, Emptied, Quoted;
    Tails(TWO, R(AHEAD), TWO, R(BEHIND));
    assert WalkAt(false, [TWO, R(BEHIND)], BEHIND, 0.0, AHEAD) ==
           Walked([Own(2, AHEAD), R(BEHIND)], 0.0, [PartFill(2, BEHIND, AHEAD)]);
    assert WalkAt(false, [R(AHEAD), TWO, R(BEHIND)], 10.0, 0.0, 0.0) ==
           Walked([R(0.0), Own(2, AHEAD), R(BEHIND)], 0.0, [PartFill(2, BEHIND, AHEAD)]);
    SweptTwo([R(0.0), Own(2, AHEAD), R(BEHIND)], [R(BEHIND)], [Own(2, AHEAD), R(BEHIND)], {});
    QuotedHere([Own(2, AHEAD), R(BEHIND)], 0);
    assert FilledOf([PartFill(2, BEHIND, AHEAD)], 2) == BEHIND;
  }

  // ---------- the run, event by event ----------

  lemma Events()
    ensures |SCRIPT| == 10 && SCRIPT[0..] == SCRIPT
    ensures SCRIPT[0] == Showing(30.0) && SCRIPT[1] == PlaceOrder(HERE, 10.0) && SCRIPT[2] == Showing(100.0)
    ensures SCRIPT[3] == Showing(90.0) && SCRIPT[4] == PlaceOrder(HERE, 10.0) && SCRIPT[5] == Selling(30.0)
    ensures SCRIPT[6] == Showing(70.0) && SCRIPT[7] == Selling(10.0) && SCRIPT[8] == Showing(10.0)
    ensures SCRIPT[9] == Selling(10.0)
    ensures [Real(None, 30.0), Own(1, 10.0)] == [R(30.0), ONE]
    ensures [R(20.0), ONE, R(70.0)] + [Own(2, 10.0)] == [R(20.0), ONE, R(70.0), TWO]
    ensures [R(27.0), ONE, R(63.0)] + [Own(2, 10.0)] == [R(27.0), ONE, R(63.0), TWO]
  {}

  /** Both runs; the arguments are where they differ. */
  lemma WholeRun(
      bound: Bound, kept: Queue, printed: Queue, gone: set<int>, shown: Queue, walked: Queue, went: set<int>,
      left: Queue, last: Queue, forTwo: Size)
    requires bound != Exact
    requires Reconcile(bound, [R(30.0), ONE], 100.0) == [R(30.0), ONE, R(70.0)]
    requires Reconcile(bound, [R(30.0), ONE, R(70.0)], 90.0) == kept
    requires Prints(kept + [Own(2, 10.0)], 30.0, printed, gone, 0.0)
    requires Reconcile(bound, printed, 70.0) == shown
    requires Prints(shown, 10.0, walked, went, 0.0)
    requires Reconcile(bound, walked, 10.0) == left
    requires Prints(left, 10.0, last, {}, forTwo)
    ensures FilledSize(Run(Init("COIN", bound), SCRIPT).1, 2) == forTwo
  {
    hide *;
    Events();
    var r0 := (Init("COIN", bound), []);
    RunChained(r0.0, SCRIPT);
    ChainedAt(r0, SCRIPT, 0);
    ChainedAt(Then(r0, SCRIPT[0]), SCRIPT, 1);
    FirstPlaced(bound, 30.0, 10.0);
    var r2 := Opened(bound, 30.0, 10.0);
    assert r2 == Then(Then(r0, SCRIPT[0]), SCRIPT[1]) by { OpenedIs(bound, 30.0, 10.0); }
    ChainedAt(r2, SCRIPT, 2);
    BookStage(r2, bound, [R(30.0), ONE], {1}, 2, 0.0, 100.0);
    var r3 := Then(r2, Showing(100.0));
    ChainedAt(r3, SCRIPT, 3);
    BookStage(r3, bound, [R(30.0), ONE, R(70.0)], {1}, 2, 0.0, 90.0);
    var r4 := Then(r3, Showing(90.0));
    ChainedAt(r4, SCRIPT, 4);
    PlaceStage(r4, bound, kept, {1}, 2, 0.0, 10.0);
    var r5 := Then(r4, PlaceOrder(HERE, 10.0));
    ChainedAt(r5, SCRIPT, 5);
    var open := {1} + {2};
    TradeStage(r5, bound, kept + [Own(2, 10.0)], open, 3, 0.0, 30.0, printed, gone, 0.0);
    var r6 := Then(r5, Selling(30.0));
    ChainedAt(r6, SCRIPT, 6);
    BookStage(r6, bound, printed, open - gone, 3, 0.0, 70.0);
    var r7 := Then(r6, Showing(70.0));
    ChainedAt(r7, SCRIPT, 7);
    TradeStage(r7, bound, shown, open - gone, 3, 0.0, 10.0, walked, went, 0.0);
    var r8 := Then(r7, Selling(10.0));
    ChainedAt(r8, SCRIPT, 8);
    BookStage(r8, bound, walked, open - gone - went, 3, 0.0, 10.0);
    var r9 := Then(r8, Showing(10.0));
    ChainedAt(r9, SCRIPT, 9);
    TradeStage(r9, bound, left, open - gone - went, 3, 0.0, 10.0, last, {}, forTwo);
    var r10 := Then(r9, Selling(10.0));
    StageFilled(r10, bound, last, open - gone - went - {}, 3, forTwo);
    ChainedNone(r10, SCRIPT);
  }

  /** With two quotes at one price PRORATA can fill the newer one while OPTIMISTIC fills nothing of it. */
  lemma OptimisticIsNoCeiling()
    ensures PlacesAfterBooks(SCRIPT) && forall e :: e in SCRIPT ==> !e.CancelOrder?
    ensures FilledSize(Run(Init("COIN", Optimistic), SCRIPT).1, 2) <
            FilledSize(Run(Init("COIN", ProRata), SCRIPT).1, 2)
    ensures !SafeSteps("COIN", Optimistic, ProRata, SCRIPT)
  {
    hide Run, Reconcile, Prints, FilledSize, SafeSteps;
    Events();
    OptimisticBooks();
    ProRataBooks();
    OptimisticFirst();
    OptimisticSecond();
    OptimisticLast();
    ProRataFirst();
    ProRataSecond();
    ProRataLast();
    PlacesAfterBooksFrom(SCRIPT, 10);
    assert SCRIPT[..10] == SCRIPT;
    WholeRun(Optimistic, [R(20.0), ONE, R(70.0)], [R(70.0), TWO], {1}, [R(70.0), TWO], [R(60.0), TWO], {},
             [R(10.0), TWO], [TWO], 0.0);
    WholeRun(ProRata, [R(27.0), ONE, R(63.0)], [Own(1, 7.0), R(63.0), TWO], {},
             [Own(1, 7.0), R(63.0), TWO, R(7.0)], [R(60.0), TWO, R(7.0)], {1},
             [R(AHEAD), TWO, R(BEHIND)], [Own(2, AHEAD), R(BEHIND)], BEHIND);
    SafeFillsTwo();
  }

  lemma SafeFillsTwo()
    requires PlacesAfterBooks(SCRIPT)
    ensures SafeSteps("COIN", Optimistic, ProRata, SCRIPT) ==>
            FilledSize(Run(Init("COIN", ProRata), SCRIPT).1, 2) <=
            FilledSize(Run(Init("COIN", Optimistic), SCRIPT).1, 2)
  {
    hide Run, FilledSize, SafeSteps;
    if SafeSteps("COIN", Optimistic, ProRata, SCRIPT) {
      SafeIsOrdered("COIN", Optimistic, ProRata, SCRIPT);
      assert OrderedAt("COIN", Optimistic, ProRata, SCRIPT, 2);
    }
  }
}
