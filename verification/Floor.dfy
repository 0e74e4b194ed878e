/**
 * The bracket under cancels and repeated quotes, over whole runs. For each pair of assumptions the bracket compares,
 * one never fills less than the other exactly as long as every event that can upset their back edges is safe:
 * cancels, when the other is PESSIMISTIC, and book updates too when it is PRORATA.
 */
module Floor {
  import opened Schemas
  import opened Fifo
  import opened FifoLaws
  import opened QueueState
  import opened QueueInvariant
  import opened Bracket
  import opened Edges

  /** `bx` is meant to fill no less than `bp`. */
  predicate Bracketed(bx: Bound, bp: Bound) {
    (bp == Pessimistic && (bx == ProRata || bx == Optimistic)) || (bp == ProRata && bx == Optimistic)
  }

  // ---------- safe scripts ----------

  /** Only a cancel, or a book update unless `bp` takes from behind, can upset the back edges. */
  predicate Risky(bp: Bound, e: Event) {
    e.CancelOrder? || (e.BookUpdate? && bp != Pessimistic)
  }

  predicate NoRisk(bp: Bound, es: seq<Event>) {
    forall e :: e in es ==> !Risky(bp, e)
  }

  ghost predicate Safe(x: SimState, p: SimState, e: Event) {
    match e
    case CancelOrder(id, _) => CancelSafe(x, p, id)
    case BookUpdate(view, _) => BookSafe(x, p, view)
    case _ => true
  }

  /** An event that can upset the back edges does not, coming after a script. */
  ghost predicate SafeNext(coin: Coin, bx: Bound, bp: Bound, es: seq<Event>, e: Event) {
    Risky(bp, e) ==> Safe(Run(Init(coin, bx), es).0, Run(Init(coin, bp), es).0, e)
  }

  /** Every such event of a script is safe where it comes. */
  ghost predicate SafeSteps(coin: Coin, bx: Bound, bp: Bound, es: seq<Event>) {
    es == [] ||
    (SafeSteps(coin, bx, bp, es[..|es| - 1]) && SafeNext(coin, bx, bp, es[..|es| - 1], es[|es| - 1]))
  }

  ghost predicate EdgesAfter(coin: Coin, bx: Bound, bp: Bound, es: seq<Event>) {
    EdgesBelow(Run(Init(coin, bx), es).0, Run(Init(coin, bp), es).0)
  }

  /** After a script no order has more left, or has been filled less, under `bx` than under `bp`. */
  ghost predicate Ordered(coin: Coin, bx: Bound, bp: Bound, es: seq<Event>) {
    forall id :: OrderedAt(coin, bx, bp, es, id)
  }

  ghost predicate OrderedAt(coin: Coin, bx: Bound, bp: Bound, es: seq<Event>, id: int) {
    var (x, fillsX) := Run(Init(coin, bx), es);
    var (p, fillsP) := Run(Init(coin, bp), es);
    NoMoreLeft(x, p, id) && FilledSize(fillsP, id) <= FilledSize(fillsX, id)
  }

  /** That is so now and will be however the script goes on until the next event that can upset it. */
  ghost predicate OrderedAhead(coin: Coin, bx: Bound, bp: Bound, es: seq<Event>) {
    forall more: seq<Event> ::
      NoRisk(bp, more) && PlacesAfterBooks(es + more) ==> Ordered(coin, bx, bp, es + more)
  }

  lemma StartsInOrder(coin: Coin, bx: Bound, bp: Bound)
    ensures EdgesAfter(coin, bx, bp, [])
  {}

  lemma RunSnoc(st: SimState, es: seq<Event>, e: Event)
    ensures Run(st, es + [e]).0 == Step(Run(st, es).0, e).0
  {
    hide Step;
    assert (es + [e])[..|es|] == es;
  }

  /** One event keeps the simulators in order; one that can upset them does so exactly when it is safe. */
  lemma EventKeepsEdges(coin: Coin, bx: Bound, bp: Bound, es: seq<Event>, e: Event)
    requires Bracketed(bx, bp) && PlacesAfterBooks(es + [e]) && EdgesAfter(coin, bx, bp, es)
    ensures EdgesAfter(coin, bx, bp, es + [e]) <==> SafeNext(coin, bx, bp, es, e)
  {
    hide EdgesBelow, CancelSafe, BookSafe, Place, Cancel, OnTrade, OnBook, Inv, Run;
    RunInvariant(coin, bx, es);
    RunInvariant(coin, bp, es);
    RunSnoc(Init(coin, bx), es, e);
    RunSnoc(Init(coin, bp), es, e);
    assert (es + [e])[..|es|] == es;
    var x, p := Run(Init(coin, bx), es).0, Run(Init(coin, bp), es).0;
    match e {
      case PlaceOrder(key, sz) =>
        RunMatchesView(coin, bx, es);
        RunMatchesView(coin, bp, es);
        PlaceKeepsEdges(x, p, key, sz);
      case CancelOrder(id, stale) => CancelKeepsEdgesIff(x, p, id, stale);
      case TradePrint(trade) => PrintKeepsEdges(x, p, trade);
      case BookUpdate(view, batch) =>
        BookKeepsEdgesIff(x, p, view, batch);
        if bp == Pessimistic {
          BookKeepsEdges(x, p, view, batch);
        }
    }
  }

  lemma {:induction false} SafeRunsKeepEdges(coin: Coin, bx: Bound, bp: Bound, es: seq<Event>)
    requires Bracketed(bx, bp) && SafeSteps(coin, bx, bp, es) && PlacesAfterBooks(es)
    ensures EdgesAfter(coin, bx, bp, es)
  {
    hide EdgesAfter, SafeNext;
    if es == [] {
      StartsInOrder(coin, bx, bp);
    } else {
      var n := |es| - 1;
      SafeRunsKeepEdges(coin, bx, bp, es[..n]);
      assert es[..n] + [es[n]] == es;
      EventKeepsEdges(coin, bx, bp, es[..n], es[n]);
    }
  }

  lemma {:induction false} SafePrefix(coin: Coin, bx: Bound, bp: Bound, es: seq<Event>, n: nat)
    requires n <= |es| && SafeSteps(coin, bx, bp, es) && PlacesAfterBooks(es)
    ensures SafeSteps(coin, bx, bp, es[..n]) && PlacesAfterBooks(es[..n])
  {
    hide SafeNext;
    if n == |es| {
      assert es[..n] == es;
    } else {
      var m := |es| - 1;
      assert es[..m][..n] == es[..n];
      SafePrefix(coin, bx, bp, es[..m], n);
    }
  }

  /**
   * After any common script of places and prints, of books and of cancels that are safe where they can do harm, and
   * so after each of its steps, no order has more left under `bx` than under `bp`, is open there only if it is open
   * here, or has been filled less.
   */
  lemma SafeIsOrdered(coin: Coin, bx: Bound, bp: Bound, es: seq<Event>)
    requires Bracketed(bx, bp) && SafeSteps(coin, bx, bp, es) && PlacesAfterBooks(es)
    ensures Ordered(coin, bx, bp, es)
  {
    hide SafeSteps, PlacesAfterBooks, Run;
    forall id ensures OrderedAt(coin, bx, bp, es, id) {
      forall n | 0 <= n <= |es|
        ensures NoMoreLeft(Run(Init(coin, bx), es[..n]).0, Run(Init(coin, bp), es[..n]).0, id)
      {
        SafePrefix(coin, bx, bp, es, n);
        EdgesOrder(coin, bx, bp, es[..n], id);
      }
      assert es[..|es|] == es;
      LessLeftMoreFilled(coin, bx, bp, es, id);
    }
  }

  lemma EdgesOrder(coin: Coin, bx: Bound, bp: Bound, es: seq<Event>, id: int)
    requires Bracketed(bx, bp) && SafeSteps(coin, bx, bp, es) && PlacesAfterBooks(es)
    ensures NoMoreLeft(Run(Init(coin, bx), es).0, Run(Init(coin, bp), es).0, id)
  {
    hide SafeSteps, Run, EdgesBelow, Inv, NoMoreLeft;
    SafeRunsKeepEdges(coin, bx, bp, es);
    RunInvariant(coin, bx, es);
    RunInvariant(coin, bp, es);
    RegisteredEdges(Run(Init(coin, bx), es).0, Run(Init(coin, bp), es).0, id);
  }

  // ---------- and only then ----------

  lemma PlacesSnoc(es: seq<Event>, e: Event)
    requires PlacesAfterBooks(es) && !e.PlaceOrder?
    ensures PlacesAfterBooks(es + [e])
  {
    assert (es + [e])[..|es|] == es;
  }

  lemma SafeSnoc(coin: Coin, bx: Bound, bp: Bound, es: seq<Event>, e: Event)
    ensures SafeSteps(coin, bx, bp, es + [e]) <==> SafeSteps(coin, bx, bp, es) && SafeNext(coin, bx, bp, es, e)
  {
    hide SafeNext;
    assert (es + [e])[..|es|] == es;
  }

  lemma {:induction false} SafeContinues(coin: Coin, bx: Bound, bp: Bound, es: seq<Event>, more: seq<Event>)
    requires SafeSteps(coin, bx, bp, es) && NoRisk(bp, more)
    ensures SafeSteps(coin, bx, bp, es + more)
  {
    hide SafeSteps;
    if more == [] {
      assert es + more == es;
    } else {
      var n := |more| - 1;
      assert more[n] in more;
      SafeContinues(coin, bx, bp, es, more[..n]);
      SafeSnoc(coin, bx, bp, es + more[..n], more[n]);
      assert es + more[..n] + [more[n]] == es + more;
    }
  }

  lemma SafeIsOrderedAhead(coin: Coin, bx: Bound, bp: Bound, es: seq<Event>)
    requires Bracketed(bx, bp) && SafeSteps(coin, bx, bp, es)
    ensures OrderedAhead(coin, bx, bp, es)
  {
    hide Ordered, SafeSteps, PlacesAfterBooks, NoRisk;
    forall more: seq<Event> | NoRisk(bp, more) && PlacesAfterBooks(es + more)
      ensures Ordered(coin, bx, bp, es + more)
    {
      SafeContinues(coin, bx, bp, es, more);
      SafeIsOrdered(coin, bx, bp, es + more);
    }
  }

  lemma UnsafeStep(x: SimState, p: SimState, e: Event) returns (trade: Trade, id: int)
    requires Inv(x) && Inv(p) && EdgesBelow(x, p) && x.bound != Exact && p.bound != Exact && !Safe(x, p, e)
    ensures OpenSize(OnTrade(Step(x, e).0, trade).0, id) > OpenSize(OnTrade(Step(p, e).0, trade).0, id)
  {
    hide Cancel, OnBook, OnTrade, CancelSafe, BookSafe, EdgesBelow, Inv, OpenSize;
    if e.CancelOrder? {
      trade, id := UnsafeCancelBreaksIt(x, p, e.id, e.stale);
    } else {
      trade, id := UnsafeBookBreaksIt(x, p, e.view, e.batch);
    }
  }

  /** An unsafe event is followed by a print after which some order has more left under `bx`. */
  lemma UnsafeIsUnordered(coin: Coin, bx: Bound, bp: Bound, es: seq<Event>, e: Event) returns (after: Event)
    requires Bracketed(bx, bp) && SafeSteps(coin, bx, bp, es) && PlacesAfterBooks(es)
    requires !SafeNext(coin, bx, bp, es, e)
    ensures after.TradePrint? && !Ordered(coin, bx, bp, es + [e] + [after])
  {
    hide SafeSteps, Run, EdgesBelow, Safe, Inv, OnTrade, OpenSize;
    var x, p := Run(Init(coin, bx), es).0, Run(Init(coin, bp), es).0;
    SafeRunsKeepEdges(coin, bx, bp, es);
    RunInvariant(coin, bx, es);
    RunInvariant(coin, bp, es);
    var trade, order := UnsafeStep(x, p, e);
    after := TradePrint(trade);
    RunSnoc(Init(coin, bx), es, e);
    RunSnoc(Init(coin, bp), es, e);
    RunSnoc(Init(coin, bx), es + [e], after);
    RunSnoc(Init(coin, bp), es + [e], after);
    assert !OrderedAt(coin, bx, bp, es + [e] + [after], order);
  }

  /**
   * The exact condition for one cancel or book update: the order of the two assumptions stands from there on, until
   * the next event that can upset it, if and only if every order still open keeps its back edges in order.
   */
  lemma EventSafeIff(coin: Coin, bx: Bound, bp: Bound, es: seq<Event>, e: Event)
    requires Bracketed(bx, bp) && SafeSteps(coin, bx, bp, es) && PlacesAfterBooks(es) && Risky(bp, e)
    ensures OrderedAhead(coin, bx, bp, es + [e]) <==> SafeNext(coin, bx, bp, es, e)
  {
    hide SafeSteps, SafeNext, Ordered, PlacesAfterBooks;
    SafeSnoc(coin, bx, bp, es, e);
    if SafeNext(coin, bx, bp, es, e) {
      SafeIsOrderedAhead(coin, bx, bp, es + [e]);
    } else {
      var after := UnsafeIsUnordered(coin, bx, bp, es, e);
      PlacesSnoc(es, e);
      PlacesSnoc(es + [e], after);
      assert NoRisk(bp, [after]);
    }
  }

  /** And for a whole script: the order stands from each of its steps on if and only if all its steps are safe. */
  lemma {:induction false} OrderedIffSafe(coin: Coin, bx: Bound, bp: Bound, es: seq<Event>)
    requires Bracketed(bx, bp) && PlacesAfterBooks(es)
    ensures SafeSteps(coin, bx, bp, es) <==> forall n :: 0 <= n <= |es| ==> OrderedAhead(coin, bx, bp, es[..n])
  {
    hide OrderedAhead, Safe;
    if es == [] {
      SafeIsOrderedAhead(coin, bx, bp, []);
      assert es[..0] == [];
    } else {
      var m := |es| - 1;
      OrderedIffSafe(coin, bx, bp, es[..m]);
      forall n | 0 <= n <= m ensures es[..m][..n] == es[..n] {}
      assert es[..|es|] == es == es[..m] + [es[m]];
      if SafeSteps(coin, bx, bp, es[..m]) {
        if Risky(bp, es[m]) {
          EventSafeIff(coin, bx, bp, es[..m], es[m]);
        } else {
          SafeIsOrderedAhead(coin, bx, bp, es);
        }
      }
    }
  }

  // ---------- cancels that leave the floor standing ----------

  /** The order pulled is the newest at its price, or has as much left in both simulators. */
  predicate Harmless(x: SimState, p: SimState, id: int) {
    NewestAtItsPrice(p, id) || OpenSize(x, id) == OpenSize(p, id)
  }

  lemma HarmlessIsSafe(x: SimState, p: SimState, gone: int)
    requires Inv(x) && Inv(p) && EdgesBelow(x, p) && Harmless(x, p, gone)
    ensures CancelSafe(x, p, gone)
  {
    hide BackEdge;
    if gone in p.registry && p.registry[gone] in x.levels {
      var key := p.registry[gone];
      OpenSizeAt(p, gone);
      RegisteredEdges(x, p, gone);
      var qx, qp := x.levels[key].queue, p.levels[key].queue;
      assert LevelOk(x.bound, x.levels[key], x.nextId) && LevelOk(p.bound, p.levels[key], p.nextId);
      assert Lists(x.levels, key, gone) <==> Registered(x.registry, key, gone);
      AscendingBounds(qx, 0, x.nextId, gone);
      forall id | gone < id && Remaining(qx, id) > 0.0 ensures EdgeStays(qx, qp, gone, id) {
        assert OrderBelow(qx, qp, id);
        AscendingBounds(qx, 0, x.nextId, id);
        assert Lists(p.levels, key, id);
        assert Registered(p.registry, key, id);
      }
    }
  }

  /** Every cancel of a script is harmless where it comes, against the PESSIMISTIC run. */
  ghost predicate HarmlessCancels(coin: Coin, bound: Bound, es: seq<Event>) {
    es == [] ||
    (HarmlessCancels(coin, bound, es[..|es| - 1]) &&
     (es[|es| - 1].CancelOrder? ==> HarmlessNext(coin, bound, es[..|es| - 1], es[|es| - 1].id)))
  }

  ghost predicate HarmlessNext(coin: Coin, bound: Bound, es: seq<Event>, id: int) {
    Harmless(Run(Init(coin, bound), es).0, Run(Init(coin, Pessimistic), es).0, id)
  }

  lemma {:induction false} HarmlessAreSafe(coin: Coin, bound: Bound, es: seq<Event>)
    requires (bound == Optimistic || bound == ProRata) && HarmlessCancels(coin, bound, es) && PlacesAfterBooks(es)
    ensures SafeSteps(coin, bound, Pessimistic, es)
  {
    hide EdgesBelow, CancelSafe, Harmless, Inv, Run;
    if es != [] {
      var n := |es| - 1;
      HarmlessAreSafe(coin, bound, es[..n]);
      if es[n].CancelOrder? {
        SafeRunsKeepEdges(coin, bound, Pessimistic, es[..n]);
        RunInvariant(coin, bound, es[..n]);
        RunInvariant(coin, Pessimistic, es[..n]);
        HarmlessIsSafe(Run(Init(coin, bound), es[..n]).0, Run(Init(coin, Pessimistic), es[..n]).0, es[n].id);
      }
    }
  }

  /**
   * The floor: while cancels pull the newest quote at a price, or one that has been filled as much in both runs,
   * PESSIMISTIC fills no order more than OPTIMISTIC or PRORATA does, with any number of quotes per price.
   */
  lemma PessimisticIsAFloor(coin: Coin, bound: Bound, es: seq<Event>)
    requires (bound == Optimistic || bound == ProRata) && HarmlessCancels(coin, bound, es) && PlacesAfterBooks(es)
    ensures Ordered(coin, bound, Pessimistic, es)
  {
    HarmlessAreSafe(coin, bound, es);
    SafeIsOrdered(coin, bound, Pessimistic, es);
  }

  lemma {:induction false} NewestAreHarmless(coin: Coin, bound: Bound, es: seq<Event>)
    requires CancelsNewest(coin, es)
    ensures HarmlessCancels(coin, bound, es)
  {
    hide NewestAtItsPrice, Run;
    if es != [] { NewestAreHarmless(coin, bound, es[..|es| - 1]); }
  }

  lemma {:induction false} NoCancelsAreHarmless(coin: Coin, bound: Bound, es: seq<Event>)
    requires NoCancels(es)
    ensures HarmlessCancels(coin, bound, es)
  {
    hide HarmlessNext;
    if es != [] {
      assert es[|es| - 1] in es;
      NoCancelsAreHarmless(coin, bound, es[..|es| - 1]);
    }
  }
}
