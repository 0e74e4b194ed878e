/** Runs on one quoted level, one event after another: what a checked counterexample is computed with. */
module OneLevel {
  import opened Schemas
  import opened Fifo
  import opened Sorting
  import opened QueueState
  import opened QueueInvariant
  import opened Bracket

  const HERE := Key(Bid, 100)

  function Showing(size: Size): Event {
    BookUpdate(BookView([Row(100, size, 1)], [], None), None)
  }

  function Selling(size: Size): Event {
    TradePrint(Trade("COIN", 0, 100, size, Ask))
  }

  /** A print of `size` turns the level into `after`, fills the orders `gone` in full, and pays order 2 `forTwo`. */
  ghost predicate Prints(before: Queue, size: Size, after: Queue, gone: set<int>, forTwo: Size) {
    var w := WalkAt(false, before, size, 0.0, 0.0);
    && Sweep(false, w.queue) == after && Quoted(after) && w.consumed == 0.0
    && Emptied(w.queue) == gone && FilledOf(w.fills, 2) == forTwo
  }

  lemma DropNone()
    ensures DropEmptyReal([]) == []
  {}

  lemma DropCons(s: Segment, t: Queue)
    ensures DropEmptyReal([s] + t) == (if s.Own? || s.sz > 0.0 then [s] else []) + DropEmptyReal(t)
  {
    assert ([s] + t)[1..] == t;
  }

  /** The sweep of a walked level, from its first segment on. */
  lemma SweptCons(s: Segment, t: Queue)
    ensures Sweep(false, [s] + t) == (if s.sz > 0.0 then [s] else []) + Sweep(false, t)
    ensures Emptied([s] + t) == (if s.Own? && s.sz <= 0.0 then {s.id} else {}) + Emptied(t)
  {
    assert ([s] + t)[1..] == t;
  }

  lemma {:induction false} SweptWhole(q: Queue)
    requires forall s :: s in q ==> s.sz > 0.0
    ensures Sweep(false, q) == q && Emptied(q) == {}
  {
    if q != [] {
      SweptWhole(q[1..]);
    }
  }

  lemma QuotedHere(q: Queue, i: nat)
    requires i < |q| && q[i].Own?
    ensures Quoted(q)
  {
    if i > 0 {
      QuotedHere(q[1..], i - 1);
    }
  }

  /** One level is quoted, with `open` orders on it, and order 2 has been filled `filled` so far. */
  ghost predicate Stage(
      run: (SimState, seq<Fill>), bound: Bound, q: Queue, open: set<int>, next: int, filled: real)
  {
    var st := run.0;
    && st.coin == "COIN" && st.bound == bound && st.levels == map[HERE := LevelState(q, 0.0)] && st.nextId == next
    && st.registry == (map id | id in open :: HERE) && FilledSize(run.1, 2) == filled
  }

  function Then(run: (SimState, seq<Fill>), e: Event): (SimState, seq<Fill>) {
    var (st, fills) := Step(run.0, e);
    (st, run.1 + fills)
  }

  lemma BookStage(
      run: (SimState, seq<Fill>), bound: Bound, q: Queue, open: set<int>, next: int, filled: real, size: Size)
    requires bound != Exact && Stage(run, bound, q, open, next, filled)
    ensures Stage(Then(run, Showing(size)), bound, Reconcile(bound, q, size), open, next, filled)
  {
    hide Reconcile;
    var view := BookView([Row(100, size, 1)], [], None);
    assert view.Rows(Bid)[..0] == [];
    assert VisibleIn(view, HERE) == size;
    assert run.1 + [] == run.1;
  }

  lemma OnlyHere(levels: map<Key, LevelState>)
    requires levels.Keys == {HERE}
    ensures LevelsBestFirst(levels, Bid) == [HERE]
  {
    var ranks := set k | k in levels && k.side == Bid :: Rank(Bid, k.px);
    assert ranks == {-100} by {
      assert HERE in levels && Rank(Bid, HERE.px) == -100;
    }
    AscendingUnique(Listing(ranks), [-100]);
  }

  lemma TradeStage(
      run: (SimState, seq<Fill>), bound: Bound, q: Queue, open: set<int>, next: int, filled: real,
      size: Size, after: Queue, gone: set<int>, forTwo: Size)
    requires bound != Exact && Stage(run, bound, q, open, next, filled) && Prints(q, size, after, gone, forTwo)
    ensures Stage(Then(run, Selling(size)), bound, after, open - gone, next, filled + forTwo)
  {
    hide LevelsBestFirst, OnLevel, FilledSize, Prints;
    var st, trade := run.0, Trade("COIN", 0, 100, size, Ask);
    OnlyHere(st.levels);
    HereStep(st, q, trade, after, gone, forTwo);
    var (st1, fills1) := OnLevel(st, HERE, trade);
    assert OnLevels(st1, [HERE][1..], trade) == (st1, []);
    assert fills1 + [] == fills1;
    FillsAppend(run.1, fills1, 2);
    assert st.registry - gone == map id | id in open - gone :: HERE;
  }

  lemma HereStep(st: SimState, q: Queue, trade: Trade, after: Queue, gone: set<int>, forTwo: Size)
    requires st.levels == map[HERE := LevelState(q, 0.0)] && st.bound != Exact
    requires trade.px == 100 && Prints(q, trade.sz, after, gone, forTwo)
    ensures var (st1, fills) := OnLevel(st, HERE, trade);
      && st1.levels == map[HERE := LevelState(after, 0.0)]
      && st1 == st.(levels := st1.levels, registry := st.registry - gone, stats := st1.stats)
      && FilledSize(fills, 2) == forTwo
  {
    EmitAllSums(st, HERE, trade, WalkAt(false, q, trade.sz, 0.0, 0.0).fills, 2);
  }

  lemma PlaceStage(
      run: (SimState, seq<Fill>), bound: Bound, q: Queue, open: set<int>, next: int, filled: real, size: Size)
    requires Stage(run, bound, q, open, next, filled)
    ensures Stage(Then(run, PlaceOrder(HERE, size)), bound, q + [Own(next, size)], open + {next}, next + 1, filled)
  {
    assert (map i | i in open :: HERE)[next := HERE] == map i | i in open + {next} :: HERE;
    assert run.1 + [] == run.1;
  }

  lemma CancelStage(
      run: (SimState, seq<Fill>), bound: Bound, q: Queue, open: set<int>, next: int, filled: real, id: int)
    requires Stage(run, bound, q, open, next, filled) && id in open && Quoted(WithoutOwn(q, id))
    ensures Stage(Then(run, CancelOrder(id, false)), bound, WithoutOwn(q, id), open - {id}, next, filled)
  {
    assert (map i | i in open :: HERE) - {id} == map i | i in open - {id} :: HERE;
    assert run.1 + [] == run.1;
  }

  /** A book, then the first order behind all it shows. */
  function Opened(bound: Bound, shown: Size, size: Size): (SimState, seq<Fill>) {
    Then(Then((Init("COIN", bound), []), Showing(shown)), PlaceOrder(HERE, size))
  }

  lemma OpenedIs(bound: Bound, shown: Size, size: Size)
    ensures Opened(bound, shown, size) ==
            Then(Then((Init("COIN", bound), []), Showing(shown)), PlaceOrder(HERE, size))
  {}

  lemma FirstPlaced(bound: Bound, shown: Size, size: Size)
    requires bound != Exact && shown > 0.0
    ensures Stage(Opened(bound, shown, size), bound, [Real(None, shown), Own(1, size)], {1}, 2, 0.0)
  {
    var s1 := Then((Init("COIN", bound), []), Showing(shown)).0;
    assert s1.levels == map[] && s1.registry == map[];
    assert BookView([Row(100, shown, 1)], [], None).Rows(Bid)[..0] == [];
    assert VisibleIn(s1.view.value, HERE) == shown;
    assert [Real(None, shown)] + [Own(1, size)] == [Real(None, shown), Own(1, size)];
    var open := {1};
    assert map[1 := HERE] == map id | id in open :: HERE;
  }

  lemma StageFilled(run: (SimState, seq<Fill>), bound: Bound, q: Queue, open: set<int>, next: int, filled: real)
    requires Stage(run, bound, q, open, next, 0.0 + filled)
    ensures FilledSize(run.1, 2) == filled
  {}

  /** A run as one event after another. */
  function Chained(run: (SimState, seq<Fill>), es: seq<Event>): (SimState, seq<Fill>)
    decreases es
  {
    if es == [] then run else Chained(Then(run, es[0]), es[1..])
  }

  lemma {:induction false} RunThen(st: SimState, done: seq<Event>, es: seq<Event>)
    ensures Run(st, done + es) == Chained(Run(st, done), es)
    decreases es
  {
    hide Step;
    if es == [] {
      assert done + es == done;
    } else {
      var more := done + [es[0]];
      assert more[..|done|] == done;
      assert Run(st, more) == Then(Run(st, done), es[0]);
      assert done + es == more + es[1..];
      RunThen(st, more, es[1..]);
    }
  }

  lemma RunChained(st: SimState, es: seq<Event>)
    ensures Run(st, es) == Chained((st, []), es)
  {
    RunThen(st, [], es);
    assert [] + es == es;
  }

  lemma ChainedAt(run: (SimState, seq<Fill>), es: seq<Event>, k: nat)
    requires k < |es|
    ensures Chained(run, es[k..]) == Chained(Then(run, es[k]), es[k + 1..])
  {
    hide Then;
    assert es[k..][1..] == es[k + 1..];
  }

  lemma ChainedNone(run: (SimState, seq<Fill>), es: seq<Event>)
    ensures Chained(run, es[|es|..]) == run
  {}

  /** A script in which each order is placed right after a book. */
  lemma {:induction false} PlacesAfterBooksFrom(es: seq<Event>, n: nat)
    requires n <= |es|
    requires forall k :: 0 < k < |es| && es[k].PlaceOrder? ==> es[k - 1].BookUpdate?
    requires es != [] ==> !es[0].PlaceOrder?
    ensures PlacesAfterBooks(es[..n])
  {
    if n > 0 {
      assert es[..n][..n - 1] == es[..n - 1];
      PlacesAfterBooksFrom(es, n - 1);
      assert n > 1 ==> es[..n - 1][n - 2] == es[n - 2];
    }
  }
}
