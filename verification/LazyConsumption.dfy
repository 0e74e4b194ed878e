/**
 * EXACT mode never shrinks real segments on a print; it counts what the block's prints consumed and skips
 * that much on the next walk. That lazy form pays and shows the same as shrinking the segments at once.
 */
module LazyConsumption {
  import opened Schemas
  import opened Fifo
  import opened FifoLaws
  import opened QueueInvariant

  /** The queue with `consumed` real volume taken off the front and empty real segments dropped. */
  function Eager(q: Queue, consumed: Size): Queue {
    if q == [] then []
    else if q[0].Own? then [q[0]] + Eager(q[1..], consumed)
    else
      var take := Min(q[0].sz, consumed);
      if q[0].sz - take > 0.0 then [Real(q[0].oid, q[0].sz - take)] + Eager(q[1..], consumed - take)
      else Eager(q[1..], consumed - take)
  }

  function EagerState(s: LevelState): LevelState {
    LevelState(Eager(s.queue, s.consumed), 0.0)
  }

  /** What the lazy form reports as queue-ahead is what the eager queue holds. */
  lemma {:induction false} LazyAhead(q: Queue, consumed: Size, id: int)
    ensures RealAhead(q, consumed, id) == RealBefore(Eager(q, consumed), id)
  {
    if q != [] {
      LazyAhead(q[1..], if q[0].Own? then consumed else consumed - Min(q[0].sz, consumed), id);
    }
  }

  lemma {:induction false} SweepEager(q: Queue, consumed: Size)
    ensures Sweep(false, Eager(q, consumed)) == Eager(Sweep(true, q), consumed)
  {
    if q != [] {
      var c := if q[0].Own? then consumed else consumed - Min(q[0].sz, consumed);
      SweepEager(q[1..], c);
      assert Sweep(true, q) ==
        if q[0].sz > 0.0 || q[0].Real? then [q[0]] + Sweep(true, q[1..]) else Sweep(true, q[1..]);
    }
  }

  /** The lazy walk of `q` and the eager walk of what is left of it pay the same and leave the same. */
  ghost predicate WalksAgree(q: Queue, budget: Size, consumed: Size, ahead: Size) {
    var lazy, eager := WalkAt(true, q, budget, consumed, ahead), WalkAt(false, Eager(q, consumed), budget, 0.0, ahead);
    eager.fills == lazy.fills && Sweep(false, eager.queue) == Eager(Sweep(true, lazy.queue), consumed + lazy.consumed)
  }

  lemma WalkOwn(id: int, sz: Size, t: Queue, budget: Size, consumed: Size, ahead: Size)
    requires budget > 0.0 && WalksAgree(t, budget - Min(budget, sz), consumed, ahead)
    ensures WalksAgree([Own(id, sz)] + t, budget, consumed, ahead)
  {
    var q := [Own(id, sz)] + t;
    assert q[1..] == t;
    assert Eager(q, consumed) == [Own(id, sz)] + Eager(t, consumed);
    assert (Eager(q, consumed))[1..] == Eager(t, consumed);
  }

  /** Real volume already walked past: gone from the eager queue, skipped by the lazy walk. */
  lemma WalkSkipped(oid: Option<int>, sz: Size, t: Queue, budget: Size, consumed: Size, ahead: Size)
    requires budget > 0.0 && sz <= consumed && WalksAgree(t, budget, consumed - sz, ahead)
    ensures WalksAgree([Real(oid, sz)] + t, budget, consumed, ahead)
  {
    var q := [Real(oid, sz)] + t;
    assert q[1..] == t;
    var rest := WalkAt(true, t, budget, consumed - sz, ahead);
    assert WalkAt(true, q, budget, consumed, ahead) == Walked([Real(oid, sz)] + rest.queue, rest.consumed, rest.fills);
    assert Sweep(true, [Real(oid, sz)] + rest.queue) == [Real(oid, sz)] + Sweep(true, rest.queue);
  }

  lemma LazyTaken(oid: Option<int>, sz: Size, t: Queue, budget: Size, consumed: Size, ahead: Size)
    requires budget > 0.0 && consumed < sz
    ensures var take := Min(budget, sz - consumed);
      var rest := WalkAt(true, t, budget - take, 0.0, ahead + sz - consumed);
      WalkAt(true, [Real(oid, sz)] + t, budget, consumed, ahead) ==
      Walked([Real(oid, sz)] + rest.queue, take + rest.consumed, rest.fills)
  {
    assert ([Real(oid, sz)] + t)[1..] == t;
  }

  lemma EagerTaken(oid: Option<int>, left: Size, t: Queue, budget: Size, ahead: Size)
    requires budget > 0.0
    ensures var take := Min(budget, left);
      var rest := WalkAt(false, t, budget - take, 0.0, ahead + left);
      WalkAt(false, [Real(oid, left)] + t, budget, 0.0, ahead) ==
      Walked([Real(oid, left - take)] + rest.queue, rest.consumed, rest.fills)
  {
    assert ([Real(oid, left)] + t)[1..] == t;
  }

  lemma SweepReal(oid: Option<int>, sz: Size, t: Queue)
    ensures Sweep(true, [Real(oid, sz)] + t) == [Real(oid, sz)] + Sweep(true, t)
    ensures Sweep(false, [Real(oid, sz)] + t) == (if sz > 0.0 then [Real(oid, sz)] else []) + Sweep(false, t)
  {
    assert ([Real(oid, sz)] + t)[1..] == t;
  }

  lemma NoBudget(exact: bool, q: Queue, skip: Size, ahead: Size)
    ensures WalkAt(exact, q, 0.0, skip, ahead) == Walked(q, 0.0, [])
  {}

  /** Real volume the print uses up whole, or in part with nothing left of the print. */
  lemma WalkTaken(oid: Option<int>, sz: Size, t: Queue, budget: Size, consumed: Size, ahead: Size)
    requires budget > 0.0 && consumed < sz
    requires WalksAgree(t, budget - Min(budget, sz - consumed), 0.0, ahead + sz - consumed)
    ensures WalksAgree([Real(oid, sz)] + t, budget, consumed, ahead)
  {
    hide Eager, WalkAt, Sweep;
    var left := sz - consumed;
    var take := Min(budget, left);
    var rest := WalkAt(true, t, budget - take, 0.0, ahead + left);
    var eagerRest := WalkAt(false, Eager(t, 0.0), budget - take, 0.0, ahead + left);
    LazyTaken(oid, sz, t, budget, consumed, ahead);
    EagerTaken(oid, left, Eager(t, 0.0), budget, ahead);
    EagerCons(oid, sz, t, consumed);
    SweepReal(oid, sz, rest.queue);
    SweepReal(oid, left - take, eagerRest.queue);
    EagerCons(oid, sz, Sweep(true, rest.queue), consumed + take + rest.consumed);
    if take < left {
      NoBudget(true, t, 0.0, ahead + left);
      NoBudget(false, Eager(t, 0.0), 0.0, ahead + left);
    }
  }

  lemma EagerCons(oid: Option<int>, sz: Size, t: Queue, consumed: Size)
    ensures Eager([Real(oid, sz)] + t, consumed) ==
      if sz <= consumed then Eager(t, consumed - sz) else [Real(oid, sz - consumed)] + Eager(t, 0.0)
  {
    assert ([Real(oid, sz)] + t)[1..] == t;
  }

  lemma {:induction false} WalkAtEager(q: Queue, budget: Size, consumed: Size, ahead: Size)
    ensures WalksAgree(q, budget, consumed, ahead)
  {
    if q == [] || budget <= 0.0 {
      SweepEager(q, consumed);
    } else {
      assert q == [q[0]] + q[1..];
      match q[0]
      case Own(id, sz) =>
        WalkAtEager(q[1..], budget - Min(budget, sz), consumed, ahead);
        WalkOwn(id, sz, q[1..], budget, consumed, ahead);
      case Real(oid, sz) =>
        if sz <= consumed {
          WalkAtEager(q[1..], budget, consumed - sz, ahead);
          WalkSkipped(oid, sz, q[1..], budget, consumed, ahead);
        } else {
          WalkAtEager(q[1..], budget - Min(budget, sz - consumed), 0.0, ahead + sz - consumed);
          WalkTaken(oid, sz, q[1..], budget, consumed, ahead);
        }
    }
  }

  ghost predicate ThroughsAgree(q: Queue, consumed: Size, ahead: Size) {
    var lazy, eager := WalkThrough(true, q, consumed, ahead), WalkThrough(false, Eager(q, consumed), 0.0, ahead);
    lazy.consumed == eager.consumed && eager.fills == lazy.fills &&
    Sweep(false, eager.queue) == Eager(Sweep(true, lazy.queue), consumed)
  }

  lemma ThroughOwn(id: int, sz: Size, t: Queue, consumed: Size, ahead: Size)
    requires ThroughsAgree(t, consumed, ahead)
    ensures ThroughsAgree([Own(id, sz)] + t, consumed, ahead)
  {
    var q := [Own(id, sz)] + t;
    assert q[1..] == t;
    assert Eager(q, consumed) == [Own(id, sz)] + Eager(t, consumed) && Eager(q, consumed)[1..] == Eager(t, consumed);
    var lazy, eager := WalkThrough(true, t, consumed, ahead), WalkThrough(false, Eager(t, consumed), 0.0, ahead);
    assert Sweep(true, [Own(id, 0.0)] + lazy.queue) == Sweep(true, lazy.queue);
    assert Sweep(false, [Own(id, 0.0)] + eager.queue) == Sweep(false, eager.queue);
  }

  lemma ThroughCons(exact: bool, oid: Option<int>, sz: Size, t: Queue, skip: Size, ahead: Size)
    ensures var already := if exact then Min(sz, skip) else 0.0;
      var rest := WalkThrough(exact, t, skip - already, ahead + sz - already);
      WalkThrough(exact, [Real(oid, sz)] + t, skip, ahead) == rest.(queue := [Real(oid, sz)] + rest.queue)
  {
    assert ([Real(oid, sz)] + t)[1..] == t;
  }

  lemma ThroughReal(oid: Option<int>, sz: Size, t: Queue, consumed: Size, ahead: Size)
    requires ThroughsAgree(t, consumed - Min(sz, consumed), ahead + sz - Min(sz, consumed))
    ensures ThroughsAgree([Real(oid, sz)] + t, consumed, ahead)
  {
    hide Eager, WalkThrough, Sweep;
    var c, ahead' := consumed - Min(sz, consumed), ahead + sz - Min(sz, consumed);
    var lazy := WalkThrough(true, t, c, ahead');
    EagerCons(oid, sz, t, consumed);
    ThroughCons(true, oid, sz, t, consumed, ahead);
    SweepReal(oid, sz, lazy.queue);
    EagerCons(oid, sz, Sweep(true, lazy.queue), consumed);
    if sz > consumed {
      ThroughCons(false, oid, sz - consumed, Eager(t, 0.0), 0.0, ahead);
      SweepReal(oid, sz - consumed, WalkThrough(false, Eager(t, 0.0), 0.0, ahead').queue);
    }
  }

  lemma {:induction false} WalkThroughEager(q: Queue, consumed: Size, ahead: Size)
    ensures ThroughsAgree(q, consumed, ahead)
  {
    if q != [] {
      assert q == [q[0]] + q[1..];
      match q[0]
      case Own(id, sz) =>
        WalkThroughEager(q[1..], consumed, ahead);
        ThroughOwn(id, sz, q[1..], consumed, ahead);
      case Real(oid, sz) =>
        WalkThroughEager(q[1..], consumed - Min(sz, consumed), ahead + sz - Min(sz, consumed));
        ThroughReal(oid, sz, q[1..], consumed, ahead);
    }
  }

  /** One print: walking lazily and then settling is settling and then walking eagerly. */
  lemma PrintCommutes(s: LevelState, p: Print)
    ensures AfterPrint(false, EagerState(s), p) == EagerState(AfterPrint(true, s, p))
    ensures Walk(false, EagerState(s), p).fills == Walk(true, s, p).fills
  {
    hide WalkAt, WalkThrough, Sweep, Eager;
    match p
    case At(sz) =>
      WalkAtEager(s.queue, sz, s.consumed, 0.0);
      WalkAtLaw(Eager(s.queue, s.consumed), sz, 0.0, 0);
    case Through =>
      WalkThroughEager(s.queue, s.consumed, 0.0);
      ThroughConsumesNothing(s.queue, s.consumed, 0.0);
  }

  lemma {:induction false} ThroughConsumesNothing(q: Queue, skip: Size, ahead: Size)
    ensures WalkThrough(true, q, skip, ahead).consumed == 0.0
  {
    if q != [] {
      if q[0].Real? {
        ThroughConsumesNothing(q[1..], skip - Min(q[0].sz, skip), ahead + q[0].sz - Min(q[0].sz, skip));
      } else {
        ThroughConsumesNothing(q[1..], skip, ahead);
      }
    }
  }

  // ---------- a block's prints ----------

  function AfterPrints(exact: bool, s: LevelState, ps: seq<Print>): LevelState
    decreases ps
  {
    if ps == [] then s else AfterPrints(exact, AfterPrint(exact, s, ps[0]), ps[1..])
  }

  function FillsOf(exact: bool, s: LevelState, ps: seq<Print>): seq<PartFill>
    decreases ps
  {
    if ps == [] then [] else Walk(exact, s, ps[0]).fills + FillsOf(exact, AfterPrint(exact, s, ps[0]), ps[1..])
  }

  /**
   * Any sequence of prints inside a block: the lazy counter emits fill for fill what eager shrinking emits,
   * with the same queue-ahead on every fill, and reports the same queue-ahead for every order afterwards.
   */
  lemma {:induction false} LazyIsEager(s: LevelState, ps: seq<Print>, id: int)
    ensures FillsOf(true, s, ps) == FillsOf(false, EagerState(s), ps)
    ensures var lazy, eager := AfterPrints(true, s, ps), AfterPrints(false, EagerState(s), ps);
      RealAhead(lazy.queue, lazy.consumed, id) == RealAhead(eager.queue, eager.consumed, id) &&
      eager == EagerState(lazy)
    decreases ps
  {
    if ps == [] {
      LazyAhead(s.queue, s.consumed, id);
      LazyAhead(EagerState(s).queue, 0.0, id);
      RealAheadFresh(EagerState(s).queue, id);
    } else {
      PrintCommutes(s, ps[0]);
      LazyIsEager(AfterPrint(true, s, ps[0]), ps[1..], id);
    }
  }

  // ---------- splitting a print ----------

  /** An order's total over two at-price prints is its fill from one print of their combined size. */
  lemma SplitEager(s: LevelState, s1: Size, s2: Size, lo: int, hi: int, id: int)
    requires Ascending(s.queue, lo, hi)
    ensures var s' := AfterPrint(false, s, At(s1));
      FilledOf(Walk(false, s, At(s1)).fills, id) + FilledOf(Walk(false, s', At(s2)).fills, id) ==
        FilledOf(Walk(false, s, At(s1 + s2)).fills, id)
  {
    hide WalkAt, Sweep;
    var s' := AfterPrint(false, s, At(s1));
    AfterPrintLaw(false, s, At(s1), lo, hi, id);
    AfterPrintLaw(false, s', At(s2), lo, hi, id);
    AfterPrintLaw(false, s, At(s1 + s2), lo, hi, id);
    RemainingAfter(s, s1, lo, hi, id);
    RemainingAfter(s', s2, lo, hi, id);
    RemainingAfter(s, s1 + s2, lo, hi, id);
  }

  lemma RemainingAfter(s: LevelState, budget: Size, lo: int, hi: int, id: int)
    requires Ascending(s.queue, lo, hi)
    ensures var after := AfterPrint(false, s, At(budget)).queue;
      Remaining(after, id) == Max(0.0, Remaining(s.queue, id) - Max(0.0, budget - VolumeAhead(s.queue, id))) &&
      (Remaining(after, id) > 0.0 ==> VolumeAhead(after, id) == Max(0.0, VolumeAhead(s.queue, id) - budget))
  {
    WalkAtLaw(s.queue, budget, 0.0, id);
    WalkAtPays(false, s.queue, budget, 0.0, 0.0, lo, hi, id);
    SweepLaw(false, Walk(false, s, At(budget)).queue, lo, hi, id);
    AscendingBounds(Walk(false, s, At(budget)).queue, lo, hi, id);
  }

  /** In either mode a print may be split in two without changing what any order gets in all. */
  lemma SplitPrint(exact: bool, s: LevelState, s1: Size, s2: Size, lo: int, hi: int, id: int)
    requires Ascending(s.queue, lo, hi)
    ensures FilledOf(FillsOf(exact, s, [At(s1), At(s2)]), id) == FilledOf(FillsOf(exact, s, [At(s1 + s2)]), id)
  {
    hide Walk, AfterPrint;
    if exact {
      LazyIsEager(s, [At(s1), At(s2)], id);
      LazyIsEager(s, [At(s1 + s2)], id);
      EagerOrder(s.queue, s.consumed, lo, hi);
    }
    var e := if exact then EagerState(s) else s;
    SplitEager(e, s1, s2, lo, hi, id);
    TwoPrints(false, e, s1, s2, id);
    OnePrint(false, e, s1 + s2);
  }

  lemma OnePrint(exact: bool, s: LevelState, sz: Size)
    ensures FillsOf(exact, s, [At(sz)]) == Walk(exact, s, At(sz)).fills
  {
    assert [At(sz)][1..] == [];
  }

  lemma TwoPrints(exact: bool, s: LevelState, s1: Size, s2: Size, id: int)
    ensures FilledOf(FillsOf(exact, s, [At(s1), At(s2)]), id) ==
      FilledOf(Walk(exact, s, At(s1)).fills, id) + FilledOf(Walk(exact, AfterPrint(exact, s, At(s1)), At(s2)).fills, id)
  {
    hide Walk, AfterPrint;
    var s' := AfterPrint(exact, s, At(s1));
    assert [At(s1), At(s2)][1..] == [At(s2)];
    OnePrint(exact, s', s2);
    PartsAppend(Walk(exact, s, At(s1)).fills, Walk(exact, s', At(s2)).fills, id);
  }

  lemma {:induction false} PartsAppend(a: seq<PartFill>, b: seq<PartFill>, id: int)
    ensures FilledOf(a + b, id) == FilledOf(a, id) + FilledOf(b, id)
  {
    if a == [] { assert a + b == b; } else {
      assert (a + b)[1..] == a[1..] + b;
      PartsAppend(a[1..], b, id);
    }
  }

  lemma {:induction false} EagerOrder(q: Queue, consumed: Size, lo: int, hi: int)
    requires Ascending(q, lo, hi)
    ensures Ascending(Eager(q, consumed), lo, hi)
  {
    if q != [] {
      var left := if q[0].Own? then consumed else consumed - Min(q[0].sz, consumed);
      EagerOrder(q[1..], left, if q[0].Own? then q[0].id else lo, hi);
    }
  }
}
