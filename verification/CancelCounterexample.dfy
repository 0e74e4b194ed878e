/**
 * The floor fails once a cancel pulls an order from in front of another: a checked run in which the
 * PESSIMISTIC simulator fills order 2 and the OPTIMISTIC one does not.
 */
module CancelCounterexample {
  import opened Schemas
  import opened Fifo
  import opened QueueState
  import opened Bracket
  import opened OneLevel

  const FIVE: Segment := Real(None, 5.0)
  const GONE: Segment := Real(None, 0.0)
  const ONE: Segment := Own(1, 10.0)
  const HALF: Segment := Own(1, 5.0)
  const TWO: Segment := Own(2, 10.0)

  /** Order 1 joins 5, another 5 comes and 5 goes, order 2 joins; a print of 5; order 1 is pulled; a print of 1. */
  const SCRIPT: seq<Event> := [
    Showing(5.0), PlaceOrder(HERE, 10.0), Showing(10.0), Showing(5.0), PlaceOrder(HERE, 10.0),
    Selling(5.0), Showing(5.0), CancelOrder(1, false), Selling(1.0)]

  // ---------- the level, computed ----------

  lemma SizesOf()
    ensures RealSize([FIVE, ONE]) == 5.0 && RealSize([FIVE, ONE, FIVE]) == 10.0
    ensures RealSize([ONE, TWO]) == 0.0 && RealSize([HALF, FIVE, TWO]) == 5.0
  {
    assert RealSize([ONE]) == 0.0 && RealSize([TWO]) == 0.0 && RealSize([FIVE]) == 5.0;
    assert [FIVE, ONE, FIVE][1..] == [ONE, FIVE] && [ONE, FIVE][1..] == [FIVE] && [FIVE, ONE][1..] == [ONE];
    assert [ONE, TWO][1..] == [TWO] && [HALF, FIVE, TWO][1..] == [FIVE, TWO] && [FIVE, TWO][1..] == [TWO];
  }

  lemma Removed()
    ensures DropEmptyReal(RemoveBack([FIVE, ONE, FIVE], 5.0)) == [FIVE, ONE]
    ensures DropEmptyReal(RemoveFront([FIVE, ONE, FIVE], 5.0)) == [ONE, FIVE]
  {
    hide DropEmptyReal, RemoveBack, RemoveFront;
    RemovedBack();
    RemovedFront();
    DropCons(GONE, []);
    DropCons(FIVE, []);
    DropCons(ONE, [GONE]);
    DropCons(ONE, [FIVE]);
    DropCons(FIVE, [ONE, GONE]);
    DropCons(GONE, [ONE, FIVE]);
    DropNone();
    assert [FIVE] + [ONE, GONE] == [FIVE, ONE, GONE] && [GONE] + [ONE, FIVE] == [GONE, ONE, FIVE];
    assert [ONE] + [GONE] == [ONE, GONE] && [ONE] + [FIVE] == [ONE, FIVE];
    assert [GONE] + [] == [GONE] && [FIVE] + [] == [FIVE];
    assert [ONE] + [] == [ONE] && [FIVE] + [ONE] == [FIVE, ONE];
  }

  lemma RemovedBack()
    ensures RemoveBack([FIVE, ONE, FIVE], 5.0) == [FIVE, ONE, GONE]
  {
    var q := [FIVE, ONE, FIVE];
    assert q[..2] == [FIVE, ONE] && [FIVE, ONE][..1] == [FIVE];
    assert RemoveBack([FIVE], 0.0) == [FIVE] && RemoveBack([FIVE, ONE], 0.0) == [FIVE, ONE];
  }

  lemma RemovedFront()
    ensures RemoveFront([FIVE, ONE, FIVE], 5.0) == [GONE, ONE, FIVE]
  {
    var q := [FIVE, ONE, FIVE];
    assert q[1..] == [ONE, FIVE] && [ONE, FIVE][1..] == [FIVE];
    assert RemoveFront([FIVE], 0.0) == [FIVE] && RemoveFront([ONE, FIVE], 0.0) == [ONE, FIVE];
  }

  lemma Books()
    ensures Reconcile(Pessimistic, [FIVE, ONE], 10.0) == Reconcile(Optimistic, [FIVE, ONE], 10.0) == [FIVE, ONE, FIVE]
    ensures Reconcile(Pessimistic, [FIVE, ONE, FIVE], 5.0) == [FIVE, ONE]
    ensures Reconcile(Optimistic, [FIVE, ONE, FIVE], 5.0) == [ONE, FIVE]
    ensures Reconcile(Pessimistic, [ONE, TWO], 5.0) == [ONE, TWO, FIVE]
    ensures Reconcile(Optimistic, [HALF, FIVE, TWO], 5.0) == [HALF, FIVE, TWO]
  {
    hide RealSize, RemoveBack, RemoveFront, DropEmptyReal;
    SizesOf();
    Removed();
    assert [FIVE, ONE] + [FIVE] == [FIVE, ONE, FIVE] && [ONE, TWO] + [FIVE] == [ONE, TWO, FIVE];
  }

  lemma FirstPrint()
    ensures Prints([FIVE, ONE, TWO], 5.0, [ONE, TWO], {}, 0.0)
    ensures Prints([ONE, FIVE, TWO], 5.0, [HALF, FIVE, TWO], {}, 0.0)
  {
    hide Sweep, Emptied, Quoted;
    assert [FIVE, ONE, TWO][1..] == [ONE, TWO] && [ONE, TWO][1..] == [TWO];
    assert [ONE, FIVE, TWO][1..] == [FIVE, TWO] && [FIVE, TWO][1..] == [TWO];
    assert WalkAt(false, [FIVE, ONE, TWO], 5.0, 0.0, 0.0) == Walked([GONE, ONE, TWO], 0.0, []);
    assert WalkAt(false, [ONE, FIVE, TWO], 5.0, 0.0, 0.0) == Walked([HALF, FIVE, TWO], 0.0, [PartFill(1, 5.0, 0.0)]);
    assert [GONE] + [ONE, TWO] == [GONE, ONE, TWO];
    SweptCons(GONE, [ONE, TWO]);
    SweptWhole([ONE, TWO]);
    SweptWhole([HALF, FIVE, TWO]);
    QuotedHere([ONE, TWO], 0);
    QuotedHere([HALF, FIVE, TWO], 0);
  }

  lemma SecondPrint()
    ensures Prints([TWO, FIVE], 1.0, [Own(2, 9.0), FIVE], {}, 1.0)
    ensures Prints([FIVE, TWO], 1.0, [Real(None, 4.0), TWO], {}, 0.0)
  {
    hide Sweep, Emptied, Quoted;
    assert [TWO, FIVE][1..] == [FIVE] && [FIVE, TWO][1..] == [TWO];
    assert WalkAt(false, [TWO, FIVE], 1.0, 0.0, 0.0) == Walked([Own(2, 9.0), FIVE], 0.0, [PartFill(2, 1.0, 0.0)]);
    assert WalkAt(false, [FIVE, TWO], 1.0, 0.0, 0.0) == Walked([Real(None, 4.0), TWO], 0.0, []);
    SweptWhole([Own(2, 9.0), FIVE]);
    SweptWhole([Real(None, 4.0), TWO]);
    QuotedHere([Own(2, 9.0), FIVE], 0);
    QuotedHere([Real(None, 4.0), TWO], 1);
  }

  lemma Pulls()
    ensures WithoutOwn([ONE, TWO, FIVE], 1) == [TWO, FIVE] && WithoutOwn([HALF, FIVE, TWO], 1) == [FIVE, TWO]
    ensures Quoted([TWO, FIVE]) && Quoted([FIVE, TWO])
  {
    assert [ONE, TWO, FIVE][1..] == [TWO, FIVE] && [TWO, FIVE][1..] == [FIVE];
    assert [HALF, FIVE, TWO][1..] == [FIVE, TWO] && [FIVE, TWO][1..] == [TWO];
    assert WithoutOwn([FIVE], 1) == [FIVE] && WithoutOwn([TWO], 1) == [TWO];
  }

  // ---------- the run, event by event ----------

  lemma Events()
    ensures |SCRIPT| == 9 && SCRIPT[0..] == SCRIPT
    ensures SCRIPT[0] == Showing(5.0) && SCRIPT[1] == PlaceOrder(HERE, 10.0) && SCRIPT[2] == Showing(10.0)
    ensures SCRIPT[3] == Showing(5.0) && SCRIPT[4] == PlaceOrder(HERE, 10.0) && SCRIPT[5] == Selling(5.0)
    ensures SCRIPT[6] == Showing(5.0) && SCRIPT[7] == CancelOrder(1, false) && SCRIPT[8] == Selling(1.0)
    ensures [Real(None, 5.0), Own(1, 10.0)] == [FIVE, ONE]
    ensures [FIVE, ONE] + [Own(2, 10.0)] == [FIVE, ONE, TWO] && [ONE, FIVE] + [Own(2, 10.0)] == [ONE, FIVE, TWO]
  {}

  /** Both runs; the arguments are where they differ. */
  lemma WholeRun(
      bound: Bound, kept: Queue, printed: Queue, shown: Queue, left: Queue, last: Queue, forTwo: Size)
    requires bound != Exact
    requires Reconcile(bound, [FIVE, ONE], 10.0) == [FIVE, ONE, FIVE]
    requires Reconcile(bound, [FIVE, ONE, FIVE], 5.0) == kept
    requires Prints(kept + [Own(2, 10.0)], 5.0, printed, {}, 0.0)
    requires Reconcile(bound, printed, 5.0) == shown
    requires WithoutOwn(shown, 1) == left && Quoted(left) && Prints(left, 1.0, last, {}, forTwo)
    ensures FilledSize(Run(Init("COIN", bound), SCRIPT).1, 2) == forTwo
  {
    hide *;
    Events();
    var r0 := (Init("COIN", bound), []);
    RunChained(r0.0, SCRIPT);
    ChainedAt(r0, SCRIPT, 0);
    ChainedAt(Then(r0, SCRIPT[0]), SCRIPT, 1);
    FirstPlaced(bound, 5.0, 10.0);
    var r2 := Opened(bound, 5.0, 10.0);
    assert r2 == Then(Then(r0, SCRIPT[0]), SCRIPT[1]) by { OpenedIs(bound, 5.0, 10.0); }
    ChainedAt(r2, SCRIPT, 2);
    BookStage(r2, bound, [FIVE, ONE], {1}, 2, 0.0, 10.0);
    var r3 := Then(r2, Showing(10.0));
    ChainedAt(r3, SCRIPT, 3);
    BookStage(r3, bound, [FIVE, ONE, FIVE], {1}, 2, 0.0, 5.0);
    var r4 := Then(r3, Showing(5.0));
    ChainedAt(r4, SCRIPT, 4);
    PlaceStage(r4, bound, kept, {1}, 2, 0.0, 10.0);
    var r5 := Then(r4, PlaceOrder(HERE, 10.0));
    ChainedAt(r5, SCRIPT, 5);
    TradeStage(r5, bound, kept + [Own(2, 10.0)], {1} + {2}, 3, 0.0, 5.0, printed, {}, 0.0);
    var r6 := Then(r5, Selling(5.0));
    ChainedAt(r6, SCRIPT, 6);
    BookStage(r6, bound, printed, {1} + {2} - {}, 3, 0.0, 5.0);
    var r7 := Then(r6, Showing(5.0));
    ChainedAt(r7, SCRIPT, 7);
    CancelStage(r7, bound, shown, {1} + {2} - {}, 3, 0.0, 1);
    var r8 := Then(r7, CancelOrder(1, false));
    ChainedAt(r8, SCRIPT, 8);
    TradeStage(r8, bound, left, {1} + {2} - {} - {1}, 3, 0.0, 1.0, last, {}, forTwo);
    StageFilled(Then(r8, Selling(1.0)), bound, last, {1} + {2} - {} - {1} - {}, 3, forTwo);
    ChainedNone(Then(r8, Selling(1.0)), SCRIPT);
  }

  /** Pulling order 1 from in front of order 2 lets the PESSIMISTIC run overtake the OPTIMISTIC one. */
  lemma CancelBreaksTheFloor()
    ensures PlacesAfterBooks(SCRIPT)
    ensures FilledSize(Run(Init("COIN", Optimistic), SCRIPT).1, 2) <
            FilledSize(Run(Init("COIN", Pessimistic), SCRIPT).1, 2)
  {
    Events();
    Books();
    FirstPrint();
    SecondPrint();
    Pulls();
    PlacesAfterBooksFrom(SCRIPT, 9);
    assert SCRIPT[..9] == SCRIPT;
    WholeRun(Pessimistic, [FIVE, ONE], [ONE, TWO], [ONE, TWO, FIVE], [TWO, FIVE], [Own(2, 9.0), FIVE], 1.0);
    WholeRun(Optimistic, [ONE, FIVE], [HALF, FIVE, TWO], [HALF, FIVE, TWO], [FIVE, TWO], [Real(None, 4.0), TWO], 0.0);
  }
}
