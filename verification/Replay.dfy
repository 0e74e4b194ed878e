/** The deterministic single-coin replay loop. */
module ReplayLoop {
  import opened Schemas
  import opened L4
  import Books = BookState
  import Spec = FeedState

  datatype Report = Report(coin: Option<Coin>, blocksApplied: nat, diffsApplied: nat, skippedOtherCoin: nat)

  ghost predicate Carries(book: L4Book, r: Report, s: Spec.Replay)
    reads book
  {
    s == Spec.Replay(r.coin, book.State(), r.blocksApplied, r.diffsApplied, r.skippedOtherCoin)
  }

  /** The coin being replayed, settled by the first diff when no snapshot named it. */
  method Adopt(book: L4Book, r: Report, coin: Coin, ghost s: Spec.Replay) returns (r': Report)
    requires book.Valid() && Carries(book, r, s)
    modifies book
    ensures book.Valid() && Carries(book, r', Spec.Adopt(s, coin))
  {
    r' := r;
    if r.coin.None? {
      r' := r.(coin := Some(coin));
      book.coin := Some(coin);
    }
  }

  method ReplayOne(book: L4Book, r: Report, item: Spec.Item, ghost s: Spec.Replay) returns (r': Report)
    requires book.Valid() && Carries(book, r, s)
    modifies book
    ensures book.Valid() && Carries(book, r', Spec.ReplayItem(s, item))
  {
    hide L4Book.Valid, Books.ApplyDiff, Books.ApplyBlock;
    match item {
      case Bare(diff) =>
        r' := Adopt(book, r, diff.coin, s);
        if Some(diff.coin) != r'.coin {
          r' := r'.(skippedOtherCoin := r'.skippedOtherCoin + 1);
        } else {
          book.ApplyDiff(diff, None);
          r' := r'.(diffsApplied := r'.diffsApplied + 1);
        }
      case Block(batch) =>
        r' := r;
        if batch.diffs != [] {
          r' := Adopt(book, r, batch.diffs[0].coin, s);
        }
        var kept := if r'.coin.None? then batch.diffs else Spec.OfCoin(batch.diffs, r'.coin.value);
        Spec.OfCoinShorter(batch.diffs, if r'.coin.None? then "" else r'.coin.value);
        book.ApplyBlock(batch.(diffs := kept));
        r' := r'.(blocksApplied := r'.blocksApplied + 1, diffsApplied := r'.diffsApplied + |kept|,
                  skippedOtherCoin := r'.skippedOtherCoin + (|batch.diffs| - |kept|));
    }
  }

  /** Rebuilds a book from an optional snapshot and a stream, counting what it applied and skipped. */
  method Replay(snapshot: Option<Books.Snapshot>, items: seq<Spec.Item>) returns (book: L4Book, r: Report)
    ensures fresh(book) && book.Valid() && Carries(book, r, Spec.ReplayRun(Spec.ReplayStart(snapshot), items))
  {
    hide L4Book.Valid, Books.LoadSnapshot, Spec.ReplayItem;
    book := new L4Book(None);
    if snapshot.Some? {
      book.LoadSnapshot(snapshot.value);
    }
    r := Report(book.coin, 0, 0, 0);
    ghost var s := Spec.ReplayStart(snapshot);
    ghost var left := items;
    var i := 0;
    while i < |items|
      invariant 0 <= i <= |items| && left == items[i..] && book.Valid() && Carries(book, r, s) && fresh(book)
      invariant Spec.ReplayRun(Spec.ReplayStart(snapshot), items) == Spec.ReplayRun(s, left)
    {
      r := ReplayOne(book, r, items[i], s);
      s, left := Spec.ReplayItem(s, left[0]), left[1..];
      i := i + 1;
    }
  }
}
