/**
 * The order-level book as one flat list of resting orders in arrival order: the reference the
 * structured book refines and the EXACT simulator is compared with.
 */
module OrderList {
  import opened Schemas

  datatype Order = Order(oid: int, key: Key, sz: Size)

  type Orders = seq<Order>

  predicate Holds(b: Orders, oid: int) {
    b != [] && (b[0].oid == oid || Holds(b[1..], oid))
  }

  predicate Unique(b: Orders) {
    b == [] || (!Holds(b[1..], b[0].oid) && Unique(b[1..]))
  }

  /** The order with this oid. */
  function Find(b: Orders, oid: int): Order
    requires Holds(b, oid)
  {
    if b[0].oid == oid then b[0] else Find(b[1..], oid)
  }

  function Without(b: Orders, oid: int): Orders {
    if b == [] then [] else if b[0].oid == oid then Without(b[1..], oid) else [b[0]] + Without(b[1..], oid)
  }

  function Resized(b: Orders, oid: int, sz: Size): Orders {
    if b == [] then [] else [if b[0].oid == oid then b[0].(sz := sz) else b[0]] + Resized(b[1..], oid, sz)
  }

  /** The FIFO queue of one price level. */
  function LevelOf(b: Orders, key: Key): seq<(int, Size)> {
    if b == [] then []
    else if b[0].key == key then [(b[0].oid, b[0].sz)] + LevelOf(b[1..], key) else LevelOf(b[1..], key)
  }

  function SumSizes(level: seq<(int, Size)>): Size {
    if level == [] then 0.0 else level[0].1 + SumSizes(level[1..])
  }

  /** The part of a level in front of `oid`. */
  function AheadOf(level: seq<(int, Size)>, oid: int): seq<(int, Size)> {
    if level == [] || level[0].0 == oid then [] else [level[0]] + AheadOf(level[1..], oid)
  }

  /** A re-announced order is cancel-and-replace: it goes to the back. */
  function Announced(b: Orders, o: Order): Orders {
    Without(b, o.oid) + [o]
  }

  function Apply(b: Orders, diff: BookDiff): Orders {
    match diff.kind
    case New(sz) => if sz.None? then b else Announced(b, Order(diff.oid, diff.key, sz.value))
    case Remove => Without(b, diff.oid)
    case Update(_, newSz) =>
      if newSz.None? then b
      else if newSz.value <= 0.0 then Without(b, diff.oid)
      else Resized(b, diff.oid, newSz.value)
  }

  function ApplyAll(b: Orders, diffs: seq<BookDiff>): Orders {
    if diffs == [] then b else Apply(ApplyAll(b, diffs[..|diffs| - 1]), diffs[|diffs| - 1])
  }

  // ---------- list laws ----------

  lemma {:induction false} HoldsAppend(a: Orders, b: Orders, oid: int)
    ensures Holds(a + b, oid) <==> Holds(a, oid) || Holds(b, oid)
  {
    if a == [] { assert a + b == b; } else {
      assert (a + b)[1..] == a[1..] + b;
      HoldsAppend(a[1..], b, oid);
    }
  }

  lemma {:induction false} UniqueAppend(b: Orders, o: Order)
    requires Unique(b) && !Holds(b, o.oid)
    ensures Unique(b + [o])
  {
    if b == [] { assert b + [o] == [o]; } else {
      assert (b + [o])[1..] == b[1..] + [o];
      UniqueAppend(b[1..], o);
      HoldsAppend(b[1..], [o], b[0].oid);
    }
  }

  lemma {:induction false} WithoutLaw(b: Orders, oid: int, x: int)
    ensures Holds(Without(b, oid), x) <==> Holds(b, x) && x != oid
    ensures Holds(b, x) && x != oid ==> Find(Without(b, oid), x) == Find(b, x)
    ensures Unique(b) ==> Unique(Without(b, oid))
    ensures !Holds(b, oid) ==> Without(b, oid) == b
  {
    if b != [] {
      WithoutLaw(b[1..], oid, x);
      WithoutLaw(b[1..], oid, b[0].oid);
    }
  }

  lemma {:induction false} ResizedLaw(b: Orders, oid: int, sz: Size, x: int)
    ensures Holds(Resized(b, oid, sz), x) <==> Holds(b, x)
    ensures Holds(b, x) ==> Find(Resized(b, oid, sz), x) == if x == oid then Find(b, x).(sz := sz) else Find(b, x)
    ensures Unique(b) ==> Unique(Resized(b, oid, sz))
    ensures !Holds(b, oid) ==> Resized(b, oid, sz) == b
  {
    if b != [] {
      ResizedLaw(b[1..], oid, sz, x);
      ResizedLaw(b[1..], oid, sz, b[0].oid);
    }
  }

  lemma {:induction false} FindAppend(b: Orders, o: Order, x: int)
    requires !Holds(b, o.oid)
    ensures Holds(b + [o], x) <==> Holds(b, x) || x == o.oid
    ensures Holds(b + [o], x) ==> Find(b + [o], x) == if x == o.oid then o else Find(b, x)
  {
    if b == [] { assert b + [o] == [o]; } else {
      assert (b + [o])[1..] == b[1..] + [o];
      FindAppend(b[1..], o, x);
    }
  }

  lemma {:induction false} LevelAppend(a: Orders, b: Orders, key: Key)
    ensures LevelOf(a + b, key) == LevelOf(a, key) + LevelOf(b, key)
  {
    if a == [] { assert a + b == b; } else {
      assert (a + b)[1..] == a[1..] + b;
      LevelAppend(a[1..], b, key);
    }
  }

  // ---------- levels of edited books ----------

  predicate Listed(level: seq<(int, Size)>, oid: int) {
    level != [] && (level[0].0 == oid || Listed(level[1..], oid))
  }

  /** Drops the first entry of `oid`. */
  function Dropped(level: seq<(int, Size)>, oid: int): seq<(int, Size)> {
    if level == [] then [] else if level[0].0 == oid then level[1..] else [level[0]] + Dropped(level[1..], oid)
  }

  /** Resizes the first entry of `oid` where it stands. */
  function Rewritten(level: seq<(int, Size)>, oid: int, sz: Size): seq<(int, Size)> {
    if level == [] then []
    else if level[0].0 == oid then [(oid, sz)] + level[1..] else [level[0]] + Rewritten(level[1..], oid, sz)
  }

  lemma {:induction false} ListedAt(b: Orders, key: Key, oid: int)
    requires Unique(b)
    ensures Listed(LevelOf(b, key), oid) <==> Holds(b, oid) && Find(b, oid).key == key
    ensures Listed(LevelOf(b, key), oid) ==> Holds(b, oid)
  {
    if b != [] {
      ListedAt(b[1..], key, oid);
      assert b[0].key == key ==> LevelOf(b, key)[1..] == LevelOf(b[1..], key);
    }
  }

  /** A level loses an order exactly when the book does, and keeps its order otherwise. */
  lemma {:induction false} LevelWithout(b: Orders, oid: int, key: Key)
    requires Unique(b)
    ensures LevelOf(Without(b, oid), key) == Dropped(LevelOf(b, key), oid)
    ensures !Listed(LevelOf(b, key), oid) ==> Dropped(LevelOf(b, key), oid) == LevelOf(b, key)
  {
    if b != [] {
      LevelWithout(b[1..], oid, key);
      WithoutLaw(b[1..], oid, oid);
      ListedAt(b[1..], key, oid);
    }
  }

  lemma {:induction false} LevelResized(b: Orders, oid: int, sz: Size, key: Key)
    requires Unique(b)
    ensures LevelOf(Resized(b, oid, sz), key) == Rewritten(LevelOf(b, key), oid, sz)
    ensures !Listed(LevelOf(b, key), oid) ==> Rewritten(LevelOf(b, key), oid, sz) == LevelOf(b, key)
  {
    if b != [] {
      LevelResized(b[1..], oid, sz, key);
      ResizedLaw(b[1..], oid, sz, oid);
      ListedAt(b[1..], key, oid);
    }
  }

  lemma ApplyKeepsUnique(b: Orders, diff: BookDiff)
    requires Unique(b)
    ensures Unique(Apply(b, diff))
  {
    WithoutLaw(b, diff.oid, diff.oid);
    match diff.kind
    case New(sz) => if sz.Some? { UniqueAppend(Without(b, diff.oid), Order(diff.oid, diff.key, sz.value)); }
    case Remove =>
    case Update(_, newSz) => if newSz.Some? && newSz.value > 0.0 { ResizedLaw(b, diff.oid, newSz.value, diff.oid); }
  }
}
