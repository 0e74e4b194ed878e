/** Many coins from one stream, and one coin from the same stream: the multi-coin feed against single-coin replay. */
module FeedState {
  import opened Schemas
  import opened OrderList
  import opened BookState

  datatype Item = Bare(diff: BookDiff) | Block(batch: BlockDiffBatch)

  /** The diffs of one coin, in stream order. */
  function OfCoin(diffs: seq<BookDiff>, coin: Coin): seq<BookDiff> {
    if diffs == [] then [] else
      var earlier := OfCoin(diffs[..|diffs| - 1], coin);
      if diffs[|diffs| - 1].coin == coin then earlier + [diffs[|diffs| - 1]] else earlier
  }

  // ---------- the feed ----------

  datatype Feed = Feed(coins: Option<set<Coin>>, books: map<Coin, Book>, blocks: nat, diffs: nat)

  predicate Allowed(coins: Option<set<Coin>>, coin: Coin) {
    coins.None? || coin in coins.value
  }

  function BookOf(books: map<Coin, Book>, coin: Coin): Book {
    if coin in books then books[coin] else Empty(Some(coin))
  }

  /** The coins a block has something to say about. */
  function Named(coins: Option<set<Coin>>, diffs: seq<BookDiff>): set<Coin> {
    set i | 0 <= i < |diffs| && Allowed(coins, diffs[i].coin) :: diffs[i].coin
  }

  function AllowedDiffs(coins: Option<set<Coin>>, diffs: seq<BookDiff>, coin: Coin): seq<BookDiff> {
    if Allowed(coins, coin) then OfCoin(diffs, coin) else []
  }

  function CountAllowed(coins: Option<set<Coin>>, diffs: seq<BookDiff>): nat {
    if diffs == [] then 0
    else CountAllowed(coins, diffs[..|diffs| - 1]) + if Allowed(coins, diffs[|diffs| - 1].coin) then 1 else 0
  }

  /** Every tracked book sees every block, with an empty batch when its coin is absent. */
  function FeedItem(f: Feed, item: Item): Feed {
    match item
    case Bare(diff) =>
      if !Allowed(f.coins, diff.coin) then f
      else f.(books := f.books[diff.coin := ApplyDiff(BookOf(f.books, diff.coin), diff, None)], diffs := f.diffs + 1)
    case Block(batch) =>
      f.(books := map c | c in f.books.Keys + Named(f.coins, batch.diffs) ::
           ApplyBlock(BookOf(f.books, c), batch.(diffs := AllowedDiffs(f.coins, batch.diffs, c))),
         blocks := f.blocks + 1, diffs := f.diffs + CountAllowed(f.coins, batch.diffs))
  }

  function FeedRun(f: Feed, items: seq<Item>): Feed
    decreases items
  {
    if items == [] then f else FeedRun(FeedItem(f, items[0]), items[1..])
  }

  // ---------- replay ----------

  datatype Replay = Replay(coin: Option<Coin>, book: Book, blocks: nat, diffs: nat, skipped: nat)

  /** The replayed coin is the snapshot's, or else the first one seen. */
  function Adopt(r: Replay, coin: Coin): Replay {
    if r.coin.Some? then r else r.(coin := Some(coin), book := r.book.(coin := Some(coin)))
  }

  function ReplayItem(r: Replay, item: Item): Replay {
    match item
    case Bare(diff) =>
      var r1 := Adopt(r, diff.coin);
      if Some(diff.coin) != r1.coin then r1.(skipped := r1.skipped + 1)
      else r1.(book := ApplyDiff(r1.book, diff, None), diffs := r1.diffs + 1)
    case Block(batch) =>
      var r1 := if batch.diffs == [] then r else Adopt(r, batch.diffs[0].coin);
      var kept := if r1.coin.None? then batch.diffs else OfCoin(batch.diffs, r1.coin.value);
      OfCoinShorter(batch.diffs, if r1.coin.None? then "" else r1.coin.value);
      r1.(book := ApplyBlock(r1.book, batch.(diffs := kept)), blocks := r1.blocks + 1,
          diffs := r1.diffs + |kept|, skipped := r1.skipped + |batch.diffs| - |kept|)
  }

  function ReplayRun(r: Replay, items: seq<Item>): Replay
    decreases items
  {
    if items == [] then r else ReplayRun(ReplayItem(r, items[0]), items[1..])
  }

  function ReplayStart(snapshot: Option<Snapshot>): Replay {
    var book := if snapshot.None? then Empty(None) else LoadSnapshot(Empty(None), snapshot.value);
    Replay(book.coin, book, 0, 0, 0)
  }

  lemma {:induction false} OfCoinShorter(diffs: seq<BookDiff>, coin: Coin)
    ensures |OfCoin(diffs, coin)| <= |diffs|
  {
    if diffs != [] { OfCoinShorter(diffs[..|diffs| - 1], coin); }
  }

  // ---------- agreement ----------

  /** A feed book and a replay book seeded with one snapshot start the same. */
  lemma SeedsAgree(s: Snapshot)
    ensures LoadSnapshot(Empty(Some(s.coin)), s) == LoadSnapshot(Empty(None), s)
    ensures LoadSnapshot(Empty(None), s).coin == Some(s.coin)
  {
    InsertKeepsCoin(Book(Some(s.coin), [], None, false, 0, []), s.bids + s.asks);
  }

  lemma {:induction false} InsertKeepsCoin(b: Book, os: Orders)
    ensures InsertAll(b, os).coin == b.coin
  {
    if os != [] { InsertKeepsCoin(b, os[..|os| - 1]); }
  }

  lemma {:induction false} DiffsKeepCoin(b: Book, diffs: seq<BookDiff>)
    requires b.coin.Some?
    ensures ApplyDiffs(b, diffs).coin == b.coin
  {
    if diffs != [] { DiffsKeepCoin(b, diffs[..|diffs| - 1]); }
  }

  lemma BlockKeepsCoin(b: Book, batch: BlockDiffBatch)
    requires b.coin.Some?
    ensures ApplyBlock(b, batch).coin == b.coin
  {
    DiffsKeepCoin(Flagged(b, batch.height), batch.diffs);
  }

  /**
   * Whatever other coins the stream interleaves, an allowed coin that starts from the same book ends with the
   * same book: same orders, height, stale flag, clock and anomalies.
   */
  lemma {:induction false} FeedIsReplay(f: Feed, r: Replay, items: seq<Item>, coin: Coin)
    requires Allowed(f.coins, coin) && coin in f.books && f.books[coin] == r.book && r.coin == Some(coin) == r.book.coin
    ensures var f', r' := FeedRun(f, items), ReplayRun(r, items);
      f'.coins == f.coins && coin in f'.books && f'.books[coin] == r'.book && r'.coin == Some(coin) == r'.book.coin &&
      f'.blocks - f.blocks == r'.blocks - r.blocks
    decreases items
  {
    if items != [] {
      if items[0].Block? {
        BlockKeepsCoin(r.book, items[0].batch.(diffs := OfCoin(items[0].batch.diffs, coin)));
      }
      FeedIsReplay(FeedItem(f, items[0]), ReplayItem(r, items[0]), items[1..], coin);
    }
  }

  /** After a block every tracked book stands at that block's height. */
  lemma BlockAlignsHeights(f: Feed, batch: BlockDiffBatch)
    ensures var f' := FeedItem(f, Block(batch));
      f.books.Keys <= f'.books.Keys &&
      forall c :: c in f'.books ==> f'.books[c].height == Some(batch.height) && f'.books[c].lastUpdateMs == batch.timeMs
  {}

  function BatchesOf(items: seq<Item>): seq<BlockDiffBatch> {
    if items == [] then []
    else if items[0].Block? then [items[0].batch] + BatchesOf(items[1..]) else BatchesOf(items[1..])
  }

  /** A tracked book goes stale exactly when some block of the stream does not follow the previous one by one. */
  lemma {:induction false} FeedStaleIffGap(f: Feed, items: seq<Item>, coin: Coin)
    requires coin in f.books
    ensures var f' := FeedRun(f, items);
      coin in f'.books &&
      (f'.books[coin].stale <==> f.books[coin].stale || !Consecutive(f.books[coin].height, BatchesOf(items)))
    decreases items
  {
    if items != [] {
      FeedStaleIffGap(FeedItem(f, items[0]), items[1..], coin);
      if items[0].Block? {
        var b, batch := f.books[coin], items[0].batch.(diffs := AllowedDiffs(f.coins, items[0].batch.diffs, coin));
        DiffsKeepHeight(Flagged(b, batch.height), batch.diffs);
      }
    }
  }
}
