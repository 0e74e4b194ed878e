/** Values shared by the books and the simulator: sides, sizes, diffs, book views, prints and fills. */
module Schemas {
  datatype Option<+T> = None | Some(value: T)

  /** Order and level sizes are exact and never negative. */
  type Size = r: real | 0.0 <= r witness 0.0

  /** A price is its tick count; the source keys levels by the exact decimal. */
  type Price = int

  type Coin = string

  datatype Side = Bid | Ask

  datatype Key = Key(side: Side, px: Price)

  /** Prices rank best first: bids by falling price, asks by rising price. */
  function Rank(side: Side, px: Price): int {
    if side == Bid then -px else px
  }

  /** Where the cancels an aggregated book hides land relative to a virtual order. */
  datatype Bound = Pessimistic | ProRata | Optimistic | Exact

  datatype DiffKind =
    | New(sz: Option<Size>)
    | Update(origSz: Option<Size>, newSz: Option<real>)
    | Remove

  datatype BookDiff = BookDiff(oid: int, coin: Coin, key: Key, kind: DiffKind)

  datatype BlockDiffBatch = BlockDiffBatch(timeMs: int, height: int, diffs: seq<BookDiff>)

  /** One aggregated price level, as `depth` reports it. */
  datatype Row = Row(px: Price, sz: Size, n: nat)

  /**
   * What a consumer can read of a book between two updates. Rows are best first;
   * `orders` is present only when the book knows individual orders.
   */
  datatype BookView = BookView(bids: seq<Row>, asks: seq<Row>, orders: Option<map<Key, seq<(int, Size)>>>)
  {
    function Rows(side: Side): seq<Row> {
      if side == Bid then bids else asks
    }

    function BestBid(): Option<Row> {
      if bids == [] then None else Some(bids[0])
    }

    function BestAsk(): Option<Row> {
      if asks == [] then None else Some(asks[0])
    }

    function Mid(): Option<real> {
      if bids == [] || asks == [] then None else Some((bids[0].px + asks[0].px) as real / 2.0)
    }

    predicate IsCrossed() {
      bids != [] && asks != [] && bids[0].px >= asks[0].px
    }
  }

  /** One print; `side` is the aggressor's. */
  datatype Trade = Trade(coin: Coin, tMs: int, px: Price, sz: Size, side: Side)

  datatype Fill = Fill(orderId: int, side: Side, px: Price, sz: Size, tMs: int, height: Option<int>,
                       queueAhead: Size, midAtFill: Option<real>)

  function Min(a: real, b: real): real {
    if a <= b then a else b
  }

  function Max(a: real, b: real): real {
    if a <= b then b else a
  }

  function Abs(x: real): real {
    if x < 0.0 then -x else x
  }
}
