/**
 * EXACT mode against the order-level book: erasing our own segments from a tracked level gives the
 * book's queue at that price, and queue-ahead is the position a real order placed there would hold.
 */
module ExactMode {
  import opened Schemas
  import opened Fifo
  import opened OrderList
  import opened QueueState

  /** The real orders of a level, front first. */
  function Erased(q: Queue): seq<(int, Size)> {
    if q == [] then []
    else if q[0].Real? && q[0].oid.Some? then [(q[0].oid.value, q[0].sz)] + Erased(q[1..])
    else Erased(q[1..])
  }

  /** Every real segment names its order, as EXACT seeding and diffs make it. */
  predicate Named(q: Queue) {
    q == [] || ((q[0].Real? ==> q[0].oid.Some?) && Named(q[1..]))
  }

  // ---------- one diff on one level ----------

  /** What one diff does to the level tracked at `k`. */
  function LevelDiff(q: Queue, k: Key, diff: BookDiff): Queue {
    if diff.key == k && (diff.kind.New? || HasOid(q, diff.oid)) then DiffQueue(q, diff) else q
  }

  lemma {:induction false} ErasedEdits(q: Queue, oid: int, sz: Size)
    requires Named(q)
    ensures HasOid(q, oid) <==> Listed(Erased(q), oid)
    ensures Erased(RemoveOid(q, oid)) == Dropped(Erased(q), oid) && Named(RemoveOid(q, oid))
    ensures Erased(ResizeOid(q, oid, sz)) == Rewritten(Erased(q), oid, sz) && Named(ResizeOid(q, oid, sz))
  {
    if q != [] {
      ErasedEdits(q[1..], oid, sz);
      if q[0].Real? {
        assert Erased(q)[1..] == Erased(q[1..]);
      }
    }
  }

  lemma {:induction false} ErasedAppend(q: Queue, s: Segment)
    requires Named(q) && (s.Real? ==> s.oid.Some?)
    ensures Erased(q + [s]) == Erased(q) + (if s.Real? then [(s.oid.value, s.sz)] else []) && Named(q + [s])
  {
    if q == [] { assert q + [s] == [s]; } else {
      assert (q + [s])[1..] == q[1..] + [s];
      ErasedAppend(q[1..], s);
    }
  }

  /**
   * The diffs after which the simulator still agrees with the book at `k`. The simulator trusts a diff's own
   * price and a `new` is always a new order; the book trusts its oid index and treats a repeated `new` as
   * cancel-and-replace. They part only over an order the book holds at `k`, or a `new` or resize without a size.
   */
  predicate Faithful(b: Orders, diff: BookDiff, k: Key) {
    var heldHere := Holds(b, diff.oid) && Find(b, diff.oid).key == k;
    match diff.kind
    case New(sz) => if sz.None? then diff.key != k else !heldHere
    case Remove => heldHere ==> diff.key == k
    case Update(_, newSz) =>
      heldHere ==> if diff.key == k then newSz.Some?
                   else newSz.Some? ==> newSz.value > 0.0 && newSz.value == Find(b, diff.oid).sz
  }

  lemma {:induction false} DroppedShrinks(level: seq<(int, Size)>, oid: int)
    requires Listed(level, oid)
    ensures |Dropped(level, oid)| == |level| - 1
  {
    if level[0].0 != oid { DroppedShrinks(level[1..], oid); }
  }

  /** Rewriting an order's size changes the level unless it already had that size. */
  lemma {:induction false} RewrittenSame(b: Orders, key: Key, oid: int, sz: Size)
    requires Unique(b) && Holds(b, oid) && Find(b, oid).key == key
    ensures Rewritten(LevelOf(b, key), oid, sz) == LevelOf(b, key) <==> Find(b, oid).sz == sz
  {
    if b[0].oid == oid {
      assert LevelOf(b, key)[0] == (oid, b[0].sz) && LevelOf(b, key)[1..] == LevelOf(b[1..], key);
    } else {
      RewrittenSame(b[1..], key, oid, sz);
      if b[0].key == key {
        var level, tail := LevelOf(b, key), LevelOf(b[1..], key);
        assert level == [(b[0].oid, b[0].sz)] + tail && level[1..] == tail;
        assert Rewritten(level, oid, sz) == [level[0]] + Rewritten(tail, oid, sz);
        assert ([level[0]] + Rewritten(tail, oid, sz))[1..] == Rewritten(tail, oid, sz);
      }
    }
  }

  lemma LevelAnnounced(b: Orders, o: Order, key: Key)
    requires Unique(b)
    ensures LevelOf(Announced(b, o), key) == Dropped(LevelOf(b, key), o.oid) +
      if o.key == key then [(o.oid, o.sz)] else []
  {
    LevelWithout(b, o.oid, key);
    LevelAppend(Without(b, o.oid), [o], key);
    assert [o][1..] == [];
  }

  lemma NewAgreesIff(q: Queue, b: Orders, diff: BookDiff, k: Key)
    requires Named(q) && Unique(b) && Erased(q) == LevelOf(b, k) && diff.kind.New?
    ensures Erased(LevelDiff(q, k, diff)) == LevelOf(Apply(b, diff), k) <==> Faithful(b, diff, k)
  {
    var oid, level, sz := diff.oid, LevelOf(b, k), diff.kind.sz;
    ListedAt(b, k, oid);
    LevelWithout(b, oid, k);
    if Listed(level, oid) { DroppedShrinks(level, oid); }
    ErasedAppend(q, Real(Some(oid), if sz.None? then 0.0 else sz.value));
    if sz.Some? {
      LevelAnnounced(b, Order(oid, diff.key, sz.value), k);
      if Listed(level, oid) { NewDiffers(level, oid, sz.value, diff.key == k); }
    }
  }

  lemma RemoveAgreesIff(q: Queue, b: Orders, diff: BookDiff, k: Key)
    requires Named(q) && Unique(b) && Erased(q) == LevelOf(b, k) && diff.kind.Remove?
    ensures Erased(LevelDiff(q, k, diff)) == LevelOf(Apply(b, diff), k) <==> Faithful(b, diff, k)
  {
    ListedAt(b, k, diff.oid);
    ErasedEdits(q, diff.oid, 0.0);
    LevelWithout(b, diff.oid, k);
    if Listed(LevelOf(b, k), diff.oid) { DroppedShrinks(LevelOf(b, k), diff.oid); }
  }

  lemma UpdateAgreesIff(q: Queue, b: Orders, diff: BookDiff, k: Key)
    requires Named(q) && Unique(b) && Erased(q) == LevelOf(b, k) && diff.kind.Update?
    ensures Erased(LevelDiff(q, k, diff)) == LevelOf(Apply(b, diff), k) <==> Faithful(b, diff, k)
  {
    var oid, level, newSz := diff.oid, LevelOf(b, k), diff.kind.newSz;
    ListedAt(b, k, oid);
    ErasedEdits(q, oid, 0.0);
    LevelWithout(b, oid, k);
    if Listed(level, oid) { DroppedShrinks(level, oid); }
    if newSz.Some? && newSz.value > 0.0 {
      ErasedEdits(q, oid, newSz.value);
      LevelResized(b, oid, newSz.value, k);
      if Listed(level, oid) { RewrittenSame(b, k, oid, newSz.value); }
    }
  }

  /** Agreement at one price survives a diff exactly when the diff is faithful there. */
  lemma DiffAgreesIff(q: Queue, b: Orders, diff: BookDiff, k: Key)
    requires Named(q) && Unique(b) && Erased(q) == LevelOf(b, k)
    ensures Erased(LevelDiff(q, k, diff)) == LevelOf(Apply(b, diff), k) <==> Faithful(b, diff, k)
  {
    hide *;
    match diff.kind
    case New(_) => NewAgreesIff(q, b, diff, k);
    case Remove => RemoveAgreesIff(q, b, diff, k);
    case Update(_, _) => UpdateAgreesIff(q, b, diff, k);
  }

  lemma NewDiffers(level: seq<(int, Size)>, oid: int, sz: Size, here: bool)
    requires Listed(level, oid)
    ensures level + (if here then [(oid, sz)] else []) != Dropped(level, oid) + if here then [(oid, sz)] else []
  {
    DroppedShrinks(level, oid);
  }

  /** A re-announced order: the book keeps one of it, at the back; the simulator keeps the old one and adds another. */
  lemma ReannouncedDiffers(k: Key)
    ensures var q, b, diff := [Real(Some(7), 5.0)], [Order(7, k, 5.0)], BookDiff(7, "COIN", k, New(Some(3.0)));
      Named(q) && Unique(b) && Erased(q) == LevelOf(b, k) && !Faithful(b, diff, k) &&
      Erased(LevelDiff(q, k, diff)) == [(7, 5.0), (7, 3.0)] && LevelOf(Apply(b, diff), k) == [(7, 3.0)]
  {
    var q, b: Orders, diff := [Real(Some(7), 5.0)], [Order(7, k, 5.0)], BookDiff(7, "COIN", k, New(Some(3.0)));
    assert q[1..] == [] && b[1..] == [] && Without(b, 7) == [];
    assert [] + [Order(7, k, 3.0)] == [Order(7, k, 3.0)] && [Order(7, k, 3.0)][1..] == [];
    ErasedAppend(q, Real(Some(7), 3.0));
    assert [(7, 5.0)] + [(7, 3.0)] == [(7, 5.0), (7, 3.0)];
  }
}
