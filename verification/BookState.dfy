/** The order-level book as a value: what a diff, a block and a snapshot make of it, and what it shows. */
module BookState {
  import opened Schemas
  import opened Sorting
  import opened OrderList

  datatype Anomaly =
    | SnapshotCoinMismatch(coin: Coin)
    | CoinMismatch(oid: int, coin: Coin)
    | HeightGap(expected: int, got: int)
    | DuplicateNew(oid: int)
    | NewWithoutSz(oid: int)
    | UnknownOidUpdate(oid: int)
    | BadDecimal(oid: int)
    | OrigSzMismatch(oid: int)
    | UpdateToZero(oid: int)
    | UnknownOidRemove(oid: int)

  /** `recorded` is every anomaly since the last snapshot; a book only keeps the newest of them. */
  datatype Book = Book(coin: Option<Coin>, orders: Orders, height: Option<int>, stale: bool, lastUpdateMs: int,
                       recorded: seq<Anomaly>)

  datatype Snapshot = Snapshot(coin: Coin, timeMs: int, height: Option<int>, bids: Orders, asks: Orders)

  function Empty(coin: Option<Coin>): Book {
    Book(coin, [], None, false, 0, [])
  }

  // ---------- feeding ----------

  /** What a diff gives the book to complain about. */
  function Complaints(b: Orders, diff: BookDiff): seq<Anomaly> {
    match diff.kind
    case New(sz) =>
      if sz.None? then [NewWithoutSz(diff.oid)]
      else if Holds(b, diff.oid) then [DuplicateNew(diff.oid)]
      else []
    case Remove => if Holds(b, diff.oid) then [] else [UnknownOidRemove(diff.oid)]
    case Update(origSz, newSz) =>
      if !Holds(b, diff.oid) then [UnknownOidUpdate(diff.oid)]
      else if newSz.None? then [BadDecimal(diff.oid)]
      else (if origSz.Some? && origSz.value != Find(b, diff.oid).sz then [OrigSzMismatch(diff.oid)] else []) +
           (if newSz.value <= 0.0 then [UpdateToZero(diff.oid)] else [])
  }

  function ApplyDiff(b: Book, diff: BookDiff, timeMs: Option<int>): Book {
    if b.coin.Some? && diff.coin != b.coin.value then b.(recorded := b.recorded + [CoinMismatch(diff.oid, diff.coin)])
    else b.(coin := Some(diff.coin), orders := Apply(b.orders, diff),
            recorded := b.recorded + Complaints(b.orders, diff),
            lastUpdateMs := if timeMs.Some? then timeMs.value else b.lastUpdateMs)
  }

  function ApplyDiffs(b: Book, diffs: seq<BookDiff>): Book {
    if diffs == [] then b else ApplyDiff(ApplyDiffs(b, diffs[..|diffs| - 1]), diffs[|diffs| - 1], None)
  }

  predicate Gap(b: Book, height: int) {
    b.height.Some? && height != b.height.value + 1
  }

  /** A height that does not follow the last one leaves the book stale. */
  function Flagged(b: Book, height: int): Book {
    if Gap(b, height) then b.(stale := true, recorded := b.recorded + [HeightGap(b.height.value + 1, height)]) else b
  }

  function ApplyBlock(b: Book, batch: BlockDiffBatch): Book {
    ApplyDiffs(Flagged(b, batch.height), batch.diffs).(height := Some(batch.height), lastUpdateMs := batch.timeMs)
  }

  function InsertAll(b: Book, os: Orders): Book {
    if os == [] then b else
      var b1, o := InsertAll(b, os[..|os| - 1]), os[|os| - 1];
      b1.(orders := Announced(b1.orders, o),
          recorded := b1.recorded + if Holds(b1.orders, o.oid) then [DuplicateNew(o.oid)] else [])
  }

  function LoadSnapshot(b: Book, s: Snapshot): Book {
    var mismatch := if b.coin.Some? && s.coin != b.coin.value then [SnapshotCoinMismatch(s.coin)] else [];
    var cleared := Book(Some(s.coin), [], b.height, false, b.lastUpdateMs, mismatch);
    InsertAll(cleared, s.bids + s.asks).(height := s.height, lastUpdateMs := s.timeMs)
  }

  // ---------- reading ----------

  /** The ranks of the prices a side has orders at. */
  function Ranks(b: Orders, side: Side): set<int> {
    if b == [] then {} else (if b[0].key.side == side then {Rank(side, b[0].key.px)} else {}) + Ranks(b[1..], side)
  }

  function RowAt(b: Orders, key: Key): Row {
    Row(key.px, SumSizes(LevelOf(b, key)), |LevelOf(b, key)|)
  }

  function RowsAt(b: Orders, side: Side, ranks: seq<int>): seq<Row> {
    seq(|ranks|, i requires 0 <= i < |ranks| => RowAt(b, Key(side, Rank(side, ranks[i]))))
  }

  /** Every level of a side, best first. */
  function Rows(b: Orders, side: Side): seq<Row> {
    RowsAt(b, side, Listing(Ranks(b, side)))
  }

  /** What a reader of the book sees. */
  function ViewOf(b: Orders): BookView {
    BookView(Rows(b, Bid), Rows(b, Ask), Some(map k | k in (set i | 0 <= i < |b| :: b[i].key) :: LevelOf(b, k)))
  }

  /** How many of `available` rows a request for `n` gets. */
  function Granted(n: int, available: nat): (count: nat)
    ensures count <= available
  {
    if n < 0 then 0 else if n < available then n else available
  }

  /** The rows of a side are its ranked prices in order. */
  lemma RowsByRank(b: Orders, side: Side)
    ensures var ranks, rows := Listing(Ranks(b, side)), Rows(b, side);
      |rows| == |ranks| && (forall i :: 0 <= i < |rows| ==> rows[i] == RowAt(b, Key(side, Rank(side, ranks[i])))) &&
      (ranks == [] <==> Ranks(b, side) == {}) && (ranks != [] ==> ranks[0] == Least(Ranks(b, side)))
  {
    var s, ranks := Ranks(b, side), Listing(Ranks(b, side));
    if s != {} { assert Least(s) in ranks; }
    if ranks != [] { assert ranks[0] in ranks && ranks[0] in s; }
  }

  /** A price is ranked exactly when some order rests there. */
  lemma {:induction false} RanksLaw(b: Orders, k: Key)
    ensures Rank(k.side, k.px) in Ranks(b, k.side) <==> LevelOf(b, k) != []
  {
    if b != [] { RanksLaw(b[1..], k); }
  }

  lemma {:induction false} LevelHasOrder(b: Orders, k: Key)
    ensures LevelOf(b, k) != [] <==> exists i :: 0 <= i < |b| && b[i].key == k
  {
    if b != [] {
      LevelHasOrder(b[1..], k);
      if b[0].key != k && LevelOf(b, k) != [] {
        var i :| 0 <= i < |b[1..]| && b[1..][i].key == k;
        assert b[i + 1].key == k;
      }
      if LevelOf(b, k) == [] {
        forall i | 0 <= i < |b| ensures b[i].key != k {
          if i > 0 { assert b[1..][i - 1] == b[i]; }
        }
      }
    }
  }

  /** A price is ranked exactly when some order rests there. */
  lemma RankedIff(b: Orders, k: Key)
    ensures Rank(k.side, k.px) in Ranks(b, k.side) <==> exists i :: 0 <= i < |b| && b[i].key == k
  {
    RanksLaw(b, k);
    LevelHasOrder(b, k);
  }

  lemma RowOfRank(b: Orders, side: Side, i: nat)
    requires i < |Rows(b, side)|
    ensures |Rows(b, side)| == |Listing(Ranks(b, side))|
    ensures var row, rank := Rows(b, side)[i], Listing(Ranks(b, side))[i];
      && Rank(side, row.px) == rank && row == RowAt(b, Key(side, row.px)) && rank in Ranks(b, side)
  {
    hide Ranks, Listing, RowAt;
    RowsByRank(b, side);
    RowAtPrice(b, Key(side, Rank(side, Listing(Ranks(b, side))[i])));
  }

  lemma RowAtPrice(b: Orders, k: Key)
    ensures RowAt(b, k).px == k.px
    ensures Rank(k.side, Rank(k.side, k.px)) == k.px
  {}

  lemma FirstRow(b: Orders, side: Side)
    requires Rows(b, side) != []
    ensures var best := Rows(b, side)[0]; Rank(side, best.px) == Least(Ranks(b, side))
  {
    hide Ranks, RowAt;
    RowsByRank(b, side);
    RowAtPrice(b, Key(side, Rank(side, Listing(Ranks(b, side))[0])));
  }

  lemma NoRows(b: Orders, side: Side)
    ensures Rows(b, side) == [] <==> forall i :: 0 <= i < |b| ==> b[i].key.side != side
  {
    hide Ranks, RowsAt, RowAt;
    RowsByRank(b, side);
    if Rows(b, side) == [] {
      forall i | 0 <= i < |b| ensures b[i].key.side != side {
        RankedIff(b, b[i].key);
      }
    } else {
      RowOfRank(b, side, 0);
      RankedIff(b, Key(side, Rows(b, side)[0].px));
    }
  }

  /** The first row is the best price any order of that side rests at, with everything resting there. */
  lemma BestRow(b: Orders, side: Side)
    ensures Rows(b, side) == [] <==> forall i :: 0 <= i < |b| ==> b[i].key.side != side
    ensures Rows(b, side) != [] ==>
      var best := Rows(b, side)[0];
      && (exists i :: 0 <= i < |b| && b[i].key == Key(side, best.px))
      && (forall i :: 0 <= i < |b| && b[i].key.side == side ==> Rank(side, best.px) <= Rank(side, b[i].key.px))
      && best == RowAt(b, Key(side, best.px))
  {
    hide Ranks, Rows, RowAt, Rank;
    NoRows(b, side);
    if Rows(b, side) != [] {
      RowOfRank(b, side, 0);
      FirstRow(b, side);
      RankedIff(b, Key(side, Rows(b, side)[0].px));
      forall i | 0 <= i < |b| && b[i].key.side == side
        ensures Rank(side, Rows(b, side)[0].px) <= Rank(side, b[i].key.px)
      {
        RankedIff(b, b[i].key);
      }
    }
  }

  /** Rows are strictly best first. */
  lemma RowsSorted(b: Orders, side: Side)
    ensures forall i, j :: 0 <= i < j < |Rows(b, side)| ==>
      Rank(side, Rows(b, side)[i].px) < Rank(side, Rows(b, side)[j].px)
  {
    var listing := Listing(Ranks(b, side));
    assert forall i :: 0 <= i < |listing| ==> Rank(side, Rows(b, side)[i].px) == listing[i];
  }

  /** Some row reports a price exactly when orders rest there, and it reports all of them. */
  lemma RowsComplete(b: Orders, key: Key)
    ensures LevelOf(b, key) != [] <==> exists i :: 0 <= i < |Rows(b, key.side)| && Rows(b, key.side)[i].px == key.px
    ensures forall i :: 0 <= i < |Rows(b, key.side)| && Rows(b, key.side)[i].px == key.px ==>
      Rows(b, key.side)[i] == RowAt(b, key)
  {
    hide Ranks, Rows, RowAt, LevelOf;
    RanksLaw(b, key);
    RowsByRank(b, key.side);
    forall i | 0 <= i < |Rows(b, key.side)| && Rows(b, key.side)[i].px == key.px
      ensures Rows(b, key.side)[i] == RowAt(b, key)
      ensures LevelOf(b, key) != []
    {
      RowOfRank(b, key.side, i);
    }
    if LevelOf(b, key) != [] {
      var i :| 0 <= i < |Listing(Ranks(b, key.side))| && Listing(Ranks(b, key.side))[i] == Rank(key.side, key.px);
      RowAtPrice(b, key);
      RowOfRank(b, key.side, i);
      RowAtPrice(b, Key(key.side, Rows(b, key.side)[i].px));
    }
  }

  // ---------- staleness ----------

  /** Every block height follows the one before it, starting from `from`. */
  predicate Consecutive(from: Option<int>, batches: seq<BlockDiffBatch>)
    decreases batches
  {
    batches == [] ||
    ((from.Some? ==> batches[0].height == from.value + 1) && Consecutive(Some(batches[0].height), batches[1..]))
  }

  function ApplyBlocks(b: Book, batches: seq<BlockDiffBatch>): Book
    decreases batches
  {
    if batches == [] then b else ApplyBlocks(ApplyBlock(b, batches[0]), batches[1..])
  }

  lemma {:induction false} DiffsKeepHeight(b: Book, diffs: seq<BookDiff>)
    ensures ApplyDiffs(b, diffs).height == b.height && ApplyDiffs(b, diffs).stale == b.stale
  {
    if diffs != [] { DiffsKeepHeight(b, diffs[..|diffs| - 1]); }
  }

  /** A book is stale exactly when it was, or when some block it saw did not follow its previous height by one. */
  lemma {:induction false} StaleIffGap(b: Book, batches: seq<BlockDiffBatch>)
    ensures ApplyBlocks(b, batches).stale <==> b.stale || !Consecutive(b.height, batches)
    ensures batches != [] ==> ApplyBlocks(b, batches).height == Some(batches[|batches| - 1].height)
    decreases batches
  {
    if batches != [] {
      DiffsKeepHeight(Flagged(b, batches[0].height), batches[0].diffs);
      StaleIffGap(ApplyBlock(b, batches[0]), batches[1..]);
    }
  }
}
