/**
 * The structured order-level book: an oid index, per side a map from price rank to a level whose entries
 * stand in FIFO order, and a cached total per level. Every method is proved to carry out `BookState`.
 */
module L4 {
  import opened Schemas
  import opened Sorting
  import opened OrderList
  import Spec = BookState

  /** One price level: the insertion-ordered entries and their cached total. */
  datatype PriceLevel = PriceLevel(px: Price, orders: seq<(int, Size)>, total: real)

  const ANOMALY_KEEP := 1000

  /** The newest entries of a log. */
  function Newest<T>(log: seq<T>, keep: nat): seq<T> {
    if |log| <= keep then log else log[|log| - keep..]
  }

  /** `levels` holds a level at `key` exactly when orders rest there, with those orders and their total. */
  ghost predicate LevelOk(levels: map<int, PriceLevel>, flat: Orders, key: Key) {
    var rank, fifo := Rank(key.side, key.px), LevelOf(flat, key);
    (rank in levels <==> fifo != []) && (rank in levels ==> levels[rank] == PriceLevel(key.px, fifo, SumSizes(fifo)))
  }

  ghost predicate IndexOk(index: map<int, Key>, flat: Orders) {
    forall oid :: (oid in index <==> Holds(flat, oid)) && (oid in index ==> index[oid] == Find(flat, oid).key)
  }

  function SizeIn(level: seq<(int, Size)>, oid: int): Size {
    if level == [] then 0.0 else if level[0].0 == oid then level[0].1 else SizeIn(level[1..], oid)
  }

  lemma {:induction false} SumAppend(a: seq<(int, Size)>, b: seq<(int, Size)>)
    ensures SumSizes(a + b) == SumSizes(a) + SumSizes(b)
  {
    if a == [] {
      assert a + b == b;
    } else {
      assert (a + b)[1..] == a[1..] + b;
      SumAppend(a[1..], b);
    }
  }

  lemma {:induction false} SumEdited(level: seq<(int, Size)>, oid: int, sz: Size)
    requires Listed(level, oid)
    ensures SumSizes(Dropped(level, oid)) == SumSizes(level) - SizeIn(level, oid)
    ensures SumSizes(Rewritten(level, oid, sz)) == SumSizes(level) - SizeIn(level, oid) + sz
    ensures Rewritten(level, oid, sz) != []
  {
    if level[0].0 != oid { SumEdited(level[1..], oid, sz); }
  }

  lemma {:induction false} SizeInLevel(b: Orders, oid: int)
    requires Unique(b) && Holds(b, oid)
    ensures SizeIn(LevelOf(b, Find(b, oid).key), oid) == Find(b, oid).sz
  {
    if b[0].oid != oid {
      SizeInLevel(b[1..], oid);
    }
  }

  lemma OneMoreSum(level: seq<(int, Size)>, oid: int, sz: Size)
    ensures SumSizes(level + [(oid, sz)]) == SumSizes(level) + sz && SumSizes([]) == 0.0
  {
    SumAppend(level, [(oid, sz)]);
    assert [(oid, sz)][1..] == [];
  }

  lemma LevelOfOneMore(flat: Orders, o: Order, k: Key)
    ensures LevelOf(flat + [o], k) == if k == o.key then LevelOf(flat, k) + [(o.oid, o.sz)] else LevelOf(flat, k)
  {
    LevelAppend(flat, [o], k);
    assert LevelOf([o], k) == if k == o.key then [(o.oid, o.sz)] else [];
    assert LevelOf(flat, k) + [] == LevelOf(flat, k);
  }

  // ---------- what the three structures say together ----------

  function SideOf(bids: map<int, PriceLevel>, asks: map<int, PriceLevel>, side: Side): map<int, PriceLevel> {
    if side == Bid then bids else asks
  }

  /** Index and levels agree with the flat list. */
  ghost predicate BookOk(
      index: map<int, Key>, bids: map<int, PriceLevel>, asks: map<int, PriceLevel>, flat: Orders)
  {
    Unique(flat) && IndexOk(index, flat) && forall k: Key :: LevelOk(SideOf(bids, asks, k.side), flat, k)
  }

  lemma EmptyOk()
    ensures BookOk(map[], map[], map[], [])
  {}

  /** The level an indexed order stands on. */
  lemma LevelAt(
      index: map<int, Key>, bids: map<int, PriceLevel>, asks: map<int, PriceLevel>, flat: Orders, oid: int)
    requires BookOk(index, bids, asks, flat) && oid in index
    ensures Unique(flat) && Holds(flat, oid) && Find(flat, oid).key == index[oid]
    ensures var key := index[oid]; var fifo := LevelOf(flat, key); var rank := Rank(key.side, key.px);
      && Listed(fifo, oid) && rank in SideOf(bids, asks, key.side)
      && SideOf(bids, asks, key.side)[rank] == PriceLevel(key.px, fifo, SumSizes(fifo))
  {
    var key := index[oid];
    assert LevelOk(SideOf(bids, asks, key.side), flat, key);
    ListedAt(flat, key, oid);
  }

  /** Where a side's levels go when the level at `key` becomes `level`. */
  function Edited(levels: map<int, PriceLevel>, key: Key, level: PriceLevel): map<int, PriceLevel> {
    if level.orders == [] then levels - {Rank(key.side, key.px)} else levels[Rank(key.side, key.px) := level]
  }

  /** `flat'` differs from `flat` at no price but that of `key`. */
  ghost predicate SameElsewhere(flat: Orders, flat': Orders, key: Key) {
    forall k: Key :: k != key ==> LevelOf(flat', k) == LevelOf(flat, k)
  }

  lemma EditOk(
      bids: map<int, PriceLevel>, asks: map<int, PriceLevel>, bids': map<int, PriceLevel>, asks': map<int, PriceLevel>,
      flat: Orders, flat': Orders, key: Key, level: PriceLevel)
    requires forall k: Key :: LevelOk(SideOf(bids, asks, k.side), flat, k)
    requires level == PriceLevel(key.px, LevelOf(flat', key), SumSizes(LevelOf(flat', key)))
    requires SameElsewhere(flat, flat', key)
    requires SideOf(bids', asks', key.side) == Edited(SideOf(bids, asks, key.side), key, level)
    requires forall side :: side != key.side ==> SideOf(bids', asks', side) == SideOf(bids, asks, side)
    ensures forall k: Key :: LevelOk(SideOf(bids', asks', k.side), flat', k)
  {
    hide SideOf;
    forall k: Key ensures LevelOk(SideOf(bids', asks', k.side), flat', k) {
      assert LevelOk(SideOf(bids, asks, k.side), flat, k);
      if k.side == key.side && k != key { OtherRank(k, key); }
    }
  }

  lemma OtherRank(k: Key, key: Key)
    requires k.side == key.side && k != key
    ensures Rank(k.side, k.px) != Rank(key.side, key.px)
  {}

  lemma DeleteIndex(index: map<int, Key>, flat: Orders, oid: int)
    requires Unique(flat) && IndexOk(index, flat)
    ensures Unique(Without(flat, oid)) && IndexOk(index - {oid}, Without(flat, oid))
  {
    WithoutLaw(flat, oid, oid);
    forall x
      ensures x in index - {oid} <==> Holds(Without(flat, oid), x)
      ensures x in index - {oid} ==> index[x] == Find(Without(flat, oid), x).key
    {
      WithoutLaw(flat, oid, x);
    }
  }

  lemma DeleteElsewhere(flat: Orders, oid: int, key: Key)
    requires Unique(flat) && Holds(flat, oid) && Find(flat, oid).key == key
    ensures SameElsewhere(flat, Without(flat, oid), key)
  {
    forall k: Key | k != key ensures LevelOf(Without(flat, oid), k) == LevelOf(flat, k) {
      LevelWithout(flat, oid, k);
      ListedAt(flat, k, oid);
    }
  }

  lemma AppendIndex(index: map<int, Key>, flat: Orders, o: Order)
    requires Unique(flat) && IndexOk(index, flat) && !Holds(flat, o.oid)
    ensures Unique(flat + [o]) && IndexOk(index[o.oid := o.key], flat + [o])
  {
    UniqueAppend(flat, o);
    forall x
      ensures x in index[o.oid := o.key] <==> Holds(flat + [o], x)
      ensures x in index[o.oid := o.key] ==> index[o.oid := o.key][x] == Find(flat + [o], x).key
    {
      FindAppend(flat, o, x);
    }
  }

  lemma AppendElsewhere(flat: Orders, o: Order)
    ensures SameElsewhere(flat, flat + [o], o.key)
  {
    forall k: Key | k != o.key ensures LevelOf(flat + [o], k) == LevelOf(flat, k) {
      LevelOfOneMore(flat, o, k);
    }
  }

  lemma ResizeIndex(index: map<int, Key>, flat: Orders, oid: int, sz: Size)
    requires Unique(flat) && IndexOk(index, flat)
    ensures Unique(Resized(flat, oid, sz)) && IndexOk(index, Resized(flat, oid, sz))
  {
    ResizedLaw(flat, oid, sz, oid);
    forall x
      ensures x in index <==> Holds(Resized(flat, oid, sz), x)
      ensures x in index ==> index[x] == Find(Resized(flat, oid, sz), x).key
    {
      ResizedLaw(flat, oid, sz, x);
    }
  }

  lemma ResizeElsewhere(flat: Orders, oid: int, sz: Size, key: Key)
    requires Unique(flat) && Holds(flat, oid) && Find(flat, oid).key == key
    ensures SameElsewhere(flat, Resized(flat, oid, sz), key)
  {
    forall k: Key | k != key ensures LevelOf(Resized(flat, oid, sz), k) == LevelOf(flat, k) {
      LevelResized(flat, oid, sz, k);
      ListedAt(flat, k, oid);
    }
  }

  class L4Book {
    var coin: Option<Coin>
    var lastUpdateMs: int
    var height: Option<int>
    var stale: bool
    var anomalies: seq<Spec.Anomaly>
    var anomalyCount: nat
    var index: map<int, Key>
    var bids: map<int, PriceLevel>
    var asks: map<int, PriceLevel>
    ghost var flat: Orders
    ghost var recorded: seq<Spec.Anomaly>

    ghost predicate Valid()
      reads this`index, this`bids, this`asks, this`flat, this`anomalies, this`anomalyCount, this`recorded
    {
      && BookOk(index, bids, asks, flat)
      && anomalies == Newest(recorded, ANOMALY_KEEP) && anomalyCount == |recorded|
    }

    ghost function State(): Spec.Book
      reads this
    {
      Spec.Book(coin, flat, height, stale, lastUpdateMs, recorded)
    }

    function Levels(side: Side): map<int, PriceLevel>
      reads this`bids, this`asks
    {
      SideOf(bids, asks, side)
    }

    constructor (coin: Option<Coin>)
      ensures Valid() && State() == Spec.Empty(coin)
    {
      this.coin := coin;
      lastUpdateMs := 0;
      height := None;
      stale := false;
      anomalies := [];
      anomalyCount := 0;
      index := map[];
      bids := map[];
      asks := map[];
      flat := [];
      recorded := [];
      EmptyOk();
    }

    // ---------- anomalies ----------

    method Complain(a: Spec.Anomaly)
      requires Valid()
      modifies this`anomalies, this`anomalyCount, this`recorded
      ensures Valid() && recorded == old(recorded) + [a]
    {
      anomalyCount := anomalyCount + 1;
      anomalies := anomalies + [a];
      recorded := recorded + [a];
      if |anomalies| > ANOMALY_KEEP {
        anomalies := anomalies[|anomalies| - ANOMALY_KEEP..];
      }
      assert anomalies == Newest(recorded, ANOMALY_KEEP);
    }

    // ---------- level edits ----------

    method PutLevel(side: Side, rank: int, level: PriceLevel)
      modifies this`bids, this`asks
      ensures Levels(side) == old(Levels(side))[rank := level]
      ensures forall s :: s != side ==> SideOf(bids, asks, s) == SideOf(old(bids), old(asks), s)
    {
      if side == Bid {
        bids := bids[rank := level];
      } else {
        asks := asks[rank := level];
      }
    }

    method DropLevel(side: Side, rank: int)
      modifies this`bids, this`asks
      ensures Levels(side) == old(Levels(side)) - {rank}
      ensures forall s :: s != side ==> SideOf(bids, asks, s) == SideOf(old(bids), old(asks), s)
    {
      if side == Bid {
        bids := bids - {rank};
      } else {
        asks := asks - {rank};
      }
    }

    method Delete(oid: int)
      requires Valid() && oid in index
      modifies this`index, this`bids, this`asks, this`flat
      ensures Valid() && flat == Without(old(flat), oid)
    {
      hide SideOf, SumSizes, SizeIn, Dropped;
      var key := index[oid];
      var rank := Rank(key.side, key.px);
      LevelAt(index, bids, asks, flat, oid);
      var level := Levels(key.side)[rank];
      SumEdited(level.orders, oid, 0.0);
      LevelWithout(flat, oid, key);
      DeleteIndex(index, flat, oid);
      DeleteElsewhere(flat, oid, key);
      index := index - {oid};
      var left := PriceLevel(level.px, Dropped(level.orders, oid), level.total - SizeIn(level.orders, oid));
      if left.orders == [] {
        DropLevel(key.side, rank);
      } else {
        PutLevel(key.side, rank, left);
      }
      flat := Without(flat, oid);
      EditOk(old(bids), old(asks), bids, asks, old(flat), flat, key, left);
    }

    method Insert(oid: int, key: Key, sz: Size)
      requires Valid()
      modifies this
      ensures Valid()
      ensures var again := if Holds(old(flat), oid) then [Spec.DuplicateNew(oid)] else [];
        State() ==
        old(State()).(orders := Announced(old(flat), Order(oid, key, sz)), recorded := old(recorded) + again)
    {
      WithoutLaw(flat, oid, oid);
      Indexed(oid);
      hide BookOk;
      if oid in index {
        Complain(Spec.DuplicateNew(oid));
        Delete(oid);
      }
      Append(oid, key, sz);
    }

    method Append(oid: int, key: Key, sz: Size)
      requires Valid() && !Holds(flat, oid)
      modifies this`index, this`bids, this`asks, this`flat
      ensures Valid() && flat == old(flat) + [Order(oid, key, sz)]
    {
      hide SideOf, SumSizes;
      var rank := Rank(key.side, key.px);
      assert LevelOk(Levels(key.side), flat, key);
      var level := if rank in Levels(key.side) then Levels(key.side)[rank] else PriceLevel(key.px, [], 0.0);
      var longer := PriceLevel(level.px, level.orders + [(oid, sz)], level.total + sz);
      PutLevel(key.side, rank, longer);
      OneMoreSum(level.orders, oid, sz);
      AppendIndex(index, flat, Order(oid, key, sz));
      AppendElsewhere(flat, Order(oid, key, sz));
      LevelOfOneMore(flat, Order(oid, key, sz), key);
      index := index[oid := key];
      flat := flat + [Order(oid, key, sz)];
      EditOk(old(bids), old(asks), bids, asks, old(flat), flat, key, longer);
    }

    method Resize(oid: int, sz: Size)
      requires Valid() && oid in index
      modifies this`bids, this`asks, this`flat
      ensures Valid() && flat == Resized(old(flat), oid, sz)
    {
      hide SideOf, SumSizes, SizeIn, Rewritten;
      var key := index[oid];
      var rank := Rank(key.side, key.px);
      LevelAt(index, bids, asks, flat, oid);
      var level := Levels(key.side)[rank];
      SumEdited(level.orders, oid, sz);
      var current := SizeIn(level.orders, oid);
      var resized := PriceLevel(level.px, Rewritten(level.orders, oid, sz), level.total + (sz - current));
      PutLevel(key.side, rank, resized);
      LevelResized(flat, oid, sz, key);
      ResizeIndex(index, flat, oid, sz);
      ResizeElsewhere(flat, oid, sz, key);
      flat := Resized(flat, oid, sz);
      EditOk(old(bids), old(asks), bids, asks, old(flat), flat, key, resized);
    }

    // ---------- feeding ----------

    method ApplyNew(diff: BookDiff)
      requires Valid() && diff.kind.New?
      modifies this
      ensures Valid()
      ensures State() ==
        old(State()).(orders := Apply(old(flat), diff), recorded := old(recorded) + Spec.Complaints(old(flat), diff))
    {
      if diff.kind.sz.None? {
        Complain(Spec.NewWithoutSz(diff.oid));
        return;
      }
      Insert(diff.oid, diff.key, diff.kind.sz.value);
    }

    /** Resizes in place, keeping the order's position. */
    method ApplyUpdate(diff: BookDiff)
      requires Valid() && diff.kind.Update?
      modifies this
      ensures Valid()
      ensures State() ==
        old(State()).(orders := Apply(old(flat), diff), recorded := old(recorded) + Spec.Complaints(old(flat), diff))
    {
      hide Valid;
      Indexed(diff.oid);
      if diff.oid !in index {
        Complain(Spec.UnknownOidUpdate(diff.oid));
        UnknownUpdate(flat, diff);
        return;
      }
      if diff.kind.newSz.None? {
        Complain(Spec.BadDecimal(diff.oid));
        return;
      }
      var current := CurrentSize(diff.oid);
      if diff.kind.origSz.Some? && diff.kind.origSz.value != current {
        Complain(Spec.OrigSzMismatch(diff.oid));
      }
      if diff.kind.newSz.value <= 0.0 {
        Complain(Spec.UpdateToZero(diff.oid));
        Delete(diff.oid);
        return;
      }
      Resize(diff.oid, diff.kind.newSz.value);
    }

    lemma Indexed(oid: int)
      requires Valid()
      ensures oid in index <==> Holds(flat, oid)
    {}

    method CurrentSize(oid: int) returns (sz: Size)
      requires Valid() && oid in index
      ensures Holds(flat, oid) && sz == Find(flat, oid).sz
    {
      var key := index[oid];
      LevelAt(index, bids, asks, flat, oid);
      SizeInLevel(flat, oid);
      sz := SizeIn(Levels(key.side)[Rank(key.side, key.px)].orders, oid);
    }

    method ApplyRemove(diff: BookDiff)
      requires Valid() && diff.kind.Remove?
      modifies this
      ensures Valid()
      ensures State() ==
        old(State()).(orders := Apply(old(flat), diff), recorded := old(recorded) + Spec.Complaints(old(flat), diff))
    {
      WithoutLaw(flat, diff.oid, diff.oid);
      if diff.oid !in index {
        Complain(Spec.UnknownOidRemove(diff.oid));
        return;
      }
      Delete(diff.oid);
    }

    method ApplyDiff(diff: BookDiff, timeMs: Option<int>)
      requires Valid()
      modifies this
      ensures Valid() && State() == Spec.ApplyDiff(old(State()), diff, timeMs)
    {
      if coin.None? {
        coin := Some(diff.coin);
      } else if diff.coin != coin.value {
        Complain(Spec.CoinMismatch(diff.oid, diff.coin));
        return;
      }
      match diff.kind {
        case New(_) => ApplyNew(diff);
        case Update(_, _) => ApplyUpdate(diff);
        case Remove => ApplyRemove(diff);
      }
      if timeMs.Some? {
        lastUpdateMs := timeMs.value;
      }
    }

    /** One block of diffs; any height that does not follow the last one by one marks the book stale. */
    method ApplyBlock(batch: BlockDiffBatch)
      requires Valid()
      modifies this
      ensures Valid() && State() == Spec.ApplyBlock(old(State()), batch)
    {
      hide Valid, Spec.ApplyDiff;
      if height.Some? && batch.height != height.value + 1 {
        stale := true;
        Complain(Spec.HeightGap(height.value + 1, batch.height));
      }
      ghost var flagged := State();
      var i := 0;
      assert batch.diffs[..0] == [];
      while i < |batch.diffs|
        invariant 0 <= i <= |batch.diffs| && Valid()
        invariant State() == Spec.ApplyDiffs(flagged, batch.diffs[..i])
      {
        assert batch.diffs[..i + 1][..i] == batch.diffs[..i];
        ApplyDiff(batch.diffs[i], None);
        i := i + 1;
      }
      assert batch.diffs[..i] == batch.diffs;
      height := Some(batch.height);
      lastUpdateMs := batch.timeMs;
    }

    method Clear(newCoin: Coin)
      requires Valid()
      modifies this
      ensures Valid() && State() == old(State()).(coin := Some(newCoin), orders := [], stale := false, recorded := [])
    {
      hide BookOk;
      coin := Some(newCoin);
      index := map[];
      bids := map[];
      asks := map[];
      flat := [];
      anomalies := [];
      anomalyCount := 0;
      recorded := [];
      stale := false;
      EmptyOk();
    }

    method InsertAll(all: Orders)
      requires Valid()
      modifies this
      ensures Valid() && State() == Spec.InsertAll(old(State()), all)
    {
      hide Valid;
      var i := 0;
      assert all[..0] == [];
      while i < |all|
        invariant 0 <= i <= |all| && Valid()
        invariant State() == Spec.InsertAll(old(State()), all[..i])
      {
        assert all[..i + 1][..i] == all[..i];
        Insert(all[i].oid, all[i].key, all[i].sz);
        i := i + 1;
      }
      assert all[..i] == all;
    }

    /** Resets to a snapshot; the only thing that clears `stale`. */
    method LoadSnapshot(s: Spec.Snapshot)
      requires Valid()
      modifies this
      ensures Valid() && State() == Spec.LoadSnapshot(old(State()), s)
    {
      hide Valid, Spec.InsertAll;
      var mismatch := coin.Some? && s.coin != coin.value;
      Clear(s.coin);
      if mismatch {
        Complain(Spec.SnapshotCoinMismatch(s.coin));
        assert recorded == [Spec.SnapshotCoinMismatch(s.coin)];
      }
      InsertAll(s.bids + s.asks);
      height := s.height;
      lastUpdateMs := s.timeMs;
    }

    // ---------- reading ----------

    /** A side's levels are the prices its orders rest at, each showing its row. */
    lemma LevelAtRank(side: Side, r: int)
      requires Valid()
      ensures r in Levels(side) <==> r in Spec.Ranks(flat, side)
      ensures r in Levels(side) ==>
        var level := Levels(side)[r];
        Row(level.px, SumSizes(level.orders), |level.orders|) == Spec.RowAt(flat, Key(side, Rank(side, r))) &&
        level.total == SumSizes(level.orders)
    {
      var k := Key(side, Rank(side, r));
      assert LevelOk(Levels(k.side), flat, k);
      Spec.RanksLaw(flat, k);
    }

    lemma SideRanks(side: Side)
      requires Valid()
      ensures Levels(side).Keys == Spec.Ranks(flat, side)
    {
      forall r ensures r in Levels(side) <==> r in Spec.Ranks(flat, side) { LevelAtRank(side, r); }
    }

    /** The best price of a side and everything resting there. */
    method Best(side: Side) returns (r: Option<(Price, Size)>)
      requires Valid()
      ensures var rows := Spec.Rows(flat, side);
        r == if rows == [] then None else Some((rows[0].px, rows[0].sz))
    {
      hide Valid, Spec.Rows, Spec.Ranks;
      SideRanks(side);
      Spec.RowsByRank(flat, side);
      if Levels(side).Keys == {} {
        return None;
      }
      var rank := Least(Levels(side).Keys);
      LevelAtRank(side, rank);
      r := Some((Levels(side)[rank].px, Levels(side)[rank].total));
    }

    method Mid() returns (r: Option<real>)
      requires Valid()
      ensures r == View().Mid()
    {
      hide Valid, Spec.Rows;
      var bid := Best(Bid);
      var ask := Best(Ask);
      r := if bid.None? || ask.None? then None else Some((bid.value.0 + ask.value.0) as real / 2.0);
    }

    method IsCrossed() returns (r: bool)
      requires Valid()
      ensures r == View().IsCrossed()
    {
      hide Valid, Spec.Rows;
      var bid := Best(Bid);
      var ask := Best(Ask);
      r := bid.Some? && ask.Some? && bid.value.0 >= ask.value.0;
    }

    method LevelEntry(side: Side, rank: int) returns (row: Row)
      requires Valid() && rank in Levels(side)
      ensures row == Spec.RowAt(flat, Key(side, Rank(side, rank)))
    {
      LevelAtRank(side, rank);
      var level := Levels(side)[rank];
      row := Row(level.px, level.total, |level.orders|);
    }

    /** The top `n` rows of a side; a negative `n` asks for none. */
    method DepthSide(side: Side, n: int) returns (rows: seq<Row>)
      requires Valid()
      ensures rows == Spec.Rows(flat, side)[..Spec.Granted(n, |Spec.Rows(flat, side)|)]
    {
      hide *;
      SideRanks(side);
      Spec.RowsByRank(flat, side);
      var ranks := Listing(Levels(side).Keys);
      var count := Spec.Granted(n, |ranks|);
      rows := [];
      var i := 0;
      while i < count
        invariant 0 <= i <= count && |rows| == i
        invariant forall j :: 0 <= j < i ==> rows[j] == Spec.Rows(flat, side)[j]
      {
        assert ranks[i] in ranks;
        var row := LevelEntry(side, ranks[i]);
        rows := rows + [row];
        i := i + 1;
      }
    }

    /** What a consumer reading this book sees. */
    ghost function View(): BookView
      reads this`flat
    {
      Spec.ViewOf(flat)
    }

    /** FIFO position of a resting order within its price level: how many orders and how much size stand ahead. */
    method QueuePosition(oid: int) returns (r: Option<(nat, Size)>)
      requires Valid()
      ensures r.None? <==> !Holds(flat, oid)
      ensures r.Some? ==>
        var ahead := AheadOf(LevelOf(flat, Find(flat, oid).key), oid);
        r.value == (|ahead|, SumSizes(ahead))
    {
      if oid !in index {
        return None;
      }
      var key := index[oid];
      assert LevelOk(Levels(key.side), flat, key);
      ListedAt(flat, key, oid);
      var entries := Levels(key.side)[Rank(key.side, key.px)].orders;
      var ahead: nat, sizeAhead: Size := 0, 0.0;
      ghost var left := entries;
      var i := 0;
      while i < |entries| && entries[i].0 != oid
        invariant 0 <= i <= |entries| && left == entries[i..]
        invariant |AheadOf(entries, oid)| == ahead + |AheadOf(left, oid)|
        invariant SumSizes(AheadOf(entries, oid)) == sizeAhead + SumSizes(AheadOf(left, oid))
      {
        assert AheadOf(left, oid) == [left[0]] + AheadOf(left[1..], oid);
        ahead := ahead + 1;
        sizeAhead := sizeAhead + entries[i].1;
        left := left[1..];
        i := i + 1;
      }
      r := Some((ahead, sizeAhead));
    }

    /** The resting orders at one price in FIFO order. */
    method LevelOrders(key: Key) returns (orders: seq<(int, Size)>)
      requires Valid()
      ensures orders == LevelOf(flat, key)
    {
      assert LevelOk(Levels(key.side), flat, key);
      var rank := Rank(key.side, key.px);
      orders := if rank in Levels(key.side) then Levels(key.side)[rank].orders else [];
    }

    /** Number of resting orders. */
    method Count() returns (n: nat)
      requires Valid()
      ensures n == |flat|
    {
      IndexSize(index, flat);
      n := |index|;
    }
  }

  /** An unknown order cannot be resized or removed. */
  lemma UnknownUpdate(b: Orders, diff: BookDiff)
    requires !Holds(b, diff.oid) && diff.kind.Update?
    ensures Apply(b, diff) == b
  {
    WithoutLaw(b, diff.oid, diff.oid);
    var newSz := diff.kind.newSz;
    ResizedLaw(b, diff.oid, if newSz.Some? && newSz.value > 0.0 then newSz.value else 0.0, diff.oid);
  }

  lemma {:induction false} IndexSize(index: map<int, Key>, flat: Orders)
    requires Unique(flat) && IndexOk(index, flat)
    ensures |index| == |flat|
  {
    if flat == [] {
      assert forall x :: x !in index;
      assert index == map[];
    } else {
      var rest := index - {flat[0].oid};
      assert Holds(flat, flat[0].oid);
      assert index.Keys == rest.Keys + {flat[0].oid};
      IndexSize(rest, flat[1..]);
    }
  }
}
