/** The multi-coin feed and the single-coin replay loop, on book objects. */
module NodeFeed {
  import opened Schemas
  import opened Sorting
  import opened L4
  import Books = BookState
  import Spec = FeedState

  class NodeDiffFeed {
    const coins: Option<set<Coin>>
    var books: map<Coin, L4Book>
    var blocks: nat
    var diffs: nat

    /** Every book is consistent and no two coins share one. */
    ghost predicate Valid()
      reads this`books, books.Values
    {
      (forall c, d :: c in books && d in books && books[c] == books[d] ==> c == d) &&
      forall c :: c in books ==> books[c].Valid()
    }

    ghost function BookStates(): map<Coin, Books.Book>
      reads this`books, books.Values
    {
      map c | c in books :: books[c].State()
    }

    ghost function State(): Spec.Feed
      reads this, books.Values
    {
      Spec.Feed(coins, BookStates(), blocks, diffs)
    }

    constructor (coins: Option<set<Coin>>)
      ensures Valid() && State() == Spec.Feed(coins, map[], 0, 0)
    {
      this.coins := coins;
      books := map[];
      blocks := 0;
      diffs := 0;
    }

    /** The book of a coin, created on first use. */
    method Track(coin: Coin) returns (book: L4Book)
      requires Valid()
      modifies this`books
      ensures Valid() && fresh(books.Values - old(books.Values)) && coin in books && books[coin] == book
      ensures books.Keys == old(books.Keys) + {coin}
      ensures BookStates() == old(BookStates())[coin := Spec.BookOf(old(BookStates()), coin)]
    {
      hide L4Book.Valid, L4Book.State;
      if coin in books {
        book := books[coin];
        assert BookStates() == old(BookStates())[coin := Spec.BookOf(old(BookStates()), coin)];
      } else {
        book := new L4Book(Some(coin));
        books := books[coin := book];
        assert forall c :: c in old(books) ==> books[c] == old(books)[c] && books[c] != book;
      }
    }

    /** Only `coin`'s book object changed. */
    twostate lemma OneBookChanged(coin: Coin)
      requires old(Valid()) && books == old(books) && coin in books && books[coin].Valid()
      requires forall o: L4Book :: o in books.Values && o != books[coin] ==>
        o.State() == old(o.State()) && (old(o.Valid()) ==> o.Valid())
      ensures Valid() && BookStates() == old(BookStates())[coin := books[coin].State()]
    {
      assert forall c :: c in books && c != coin ==> books[c] in books.Values && books[c] != books[coin];
    }

    method FeedDiff(coin: Coin, diff: BookDiff)
      requires Valid()
      modifies this`books, books.Values
      ensures Valid() && fresh(books.Values - old(books.Values))
      ensures BookStates() ==
        old(BookStates())[coin := Books.ApplyDiff(Spec.BookOf(old(BookStates()), coin), diff, None)]
    {
      hide L4Book.Valid, L4Book.State, Books.ApplyDiff, BookStates, Valid;
      var book := Track(coin);
      BookIn(coin);
      label tracked:
      book.ApplyDiff(diff, None);
      OneBookChanged@tracked(coin);
    }

    method FeedBlock(coin: Coin, batch: BlockDiffBatch)
      requires Valid()
      modifies this`books, books.Values
      ensures Valid() && fresh(books.Values - old(books.Values))
      ensures books.Keys == old(books.Keys) + {coin}
      ensures BookStates() == old(BookStates())[coin := Books.ApplyBlock(Spec.BookOf(old(BookStates()), coin), batch)]
    {
      hide L4Book.Valid, L4Book.State, Books.ApplyBlock, BookStates, Valid;
      var book := Track(coin);
      BookIn(coin);
      label tracked:
      book.ApplyBlock(batch);
      OneBookChanged@tracked(coin);
    }

    lemma BookIn(coin: Coin)
      requires Valid() && coin in books
      ensures books[coin].Valid() && coin in BookStates() && BookStates()[coin] == books[coin].State()
    {}

    /** The block's diffs demultiplexed by coin. */
    method Demultiplex(all: seq<BookDiff>) returns (perCoin: map<Coin, seq<BookDiff>>, count: nat)
      ensures perCoin.Keys == Spec.Named(coins, all) && count == Spec.CountAllowed(coins, all)
      ensures forall c :: c in perCoin ==> perCoin[c] == Spec.AllowedDiffs(coins, all, c)
      ensures forall c :: c !in perCoin ==> Spec.AllowedDiffs(coins, all, c) == []
    {
      perCoin, count := map[], 0;
      var i := 0;
      assert all[..0] == [];
      while i < |all|
        invariant 0 <= i <= |all| && count == Spec.CountAllowed(coins, all[..i])
        invariant perCoin.Keys == Spec.Named(coins, all[..i])
        invariant forall c :: c in perCoin ==> perCoin[c] == Spec.AllowedDiffs(coins, all[..i], c)
        invariant forall c :: c !in perCoin ==> Spec.AllowedDiffs(coins, all[..i], c) == []
      {
        var diff := all[i];
        assert all[..i + 1][..i] == all[..i] && all[..i + 1][i] == diff;
        NamedStep(all, i);
        if Spec.Allowed(coins, diff.coin) {
          var earlier := if diff.coin in perCoin then perCoin[diff.coin] else [];
          perCoin := perCoin[diff.coin := earlier + [diff]];
          count := count + 1;
        }
        i := i + 1;
      }
      assert all[..i] == all;
    }

    lemma NamedStep(all: seq<BookDiff>, i: nat)
      requires i < |all|
      ensures Spec.Named(coins, all[..i + 1]) == Spec.Named(coins, all[..i]) +
        if Spec.Allowed(coins, all[i].coin) then {all[i].coin} else {}
    {
      var before, after := Spec.Named(coins, all[..i]), Spec.Named(coins, all[..i + 1]);
      forall c ensures c in after <==> c in before || (Spec.Allowed(coins, all[i].coin) && c == all[i].coin) {
        if c in before {
          var j :| 0 <= j < i && Spec.Allowed(coins, all[..i][j].coin) && all[..i][j].coin == c;
          assert all[..i + 1][j].coin == c;
        }
        if c in after {
          var j :| 0 <= j < i + 1 && Spec.Allowed(coins, all[..i + 1][j].coin) && all[..i + 1][j].coin == c;
          if j < i { assert all[..i][j].coin == c; }
        }
        if Spec.Allowed(coins, all[i].coin) { assert all[..i + 1][i].coin in after; }
      }
    }

    method ProcessBlock(batch: BlockDiffBatch)
      requires Valid()
      modifies this, books.Values
      ensures Valid() && fresh(books.Values - old(books.Values))
      ensures State() == Spec.FeedItem(old(State()), Spec.Block(batch))
    {
      hide Valid, BookStates, Books.ApplyBlock, Spec.BookOf, Spec.Named, Spec.AllowedDiffs, Spec.CountAllowed;
      blocks := blocks + 1;
      var perCoin, count := Demultiplex(batch.diffs);
      var todo := books.Keys + perCoin.Keys;
      KeysAgree();
      FeedTracked(batch, perCoin, todo);
      diffs := diffs + count;
    }

    /** Hands every tracked coin its share of the block. */
    method FeedTracked(batch: BlockDiffBatch, perCoin: map<Coin, seq<BookDiff>>, all: set<Coin>)
      requires Valid() && all == BookStates().Keys + Spec.Named(coins, batch.diffs)
      requires forall c :: c in all ==>
        Spec.AllowedDiffs(coins, batch.diffs, c) == if c in perCoin then perCoin[c] else []
      modifies this`books, books.Values
      ensures Valid() && fresh(books.Values - old(books.Values))
      ensures BookStates() == map c | c in old(BookStates()).Keys + Spec.Named(coins, batch.diffs) ::
                Books.ApplyBlock(Spec.BookOf(old(BookStates()), c),
                  batch.(diffs := Spec.AllowedDiffs(coins, batch.diffs, c)))
    {
      hide *;
      ghost var before := BookStates();
      var todo := all;
      BlockedStart(coins, before, batch, all);
      while todo != {}
        modifies this`books, books.Values
        invariant Valid() && fresh(books.Values - old(books.Values)) && todo <= all
        invariant Blocked(coins, before, BookStates(), batch, all - todo, todo)
        decreases todo
      {
        ghost var some := SomeOf(todo);
        var coin :| coin in todo;
        ghost var now := BookStates();
        FeedBlock(coin, batch.(diffs := if coin in perCoin then perCoin[coin] else []));
        BlockedStep(coins, before, now, batch, all - todo, todo, coin);
        assert all - (todo - {coin}) == all - todo + {coin};
        todo := todo - {coin};
      }
      assert all - todo == all;
      BlockedEnd(coins, before, BookStates(), batch, all);
    }

    lemma KeysAgree()
      ensures BookStates().Keys == books.Keys
    {}

    method ProcessItem(item: Spec.Item)
      requires Valid()
      modifies this, books.Values
      ensures Valid() && fresh(books.Values - old(books.Values))
      ensures State() == Spec.FeedItem(old(State()), item)
    {
      hide Valid, BookStates, Books.ApplyDiff, Books.ApplyBlock, Spec.BookOf, Spec.Named;
      match item {
        case Bare(diff) =>
          if Spec.Allowed(coins, diff.coin) {
            FeedDiff(diff.coin, diff);
            diffs := diffs + 1;
          }
        case Block(batch) =>
          ProcessBlock(batch);
      }
    }
  }

  /** Part of a block is fed: the coins in `done` have seen it, those in `todo` stand as before. */
  ghost predicate Blocked(coins: Option<set<Coin>>, before: map<Coin, Books.Book>, now: map<Coin, Books.Book>,
                          batch: BlockDiffBatch, done: set<Coin>, todo: set<Coin>)
  {
    && now.Keys == before.Keys + done
    && (forall c :: c in done ==>
          now[c] == Books.ApplyBlock(Spec.BookOf(before, c), batch.(diffs := Spec.AllowedDiffs(coins, batch.diffs, c))))
    && (forall c :: c in todo ==> Spec.BookOf(now, c) == Spec.BookOf(before, c))
  }

  lemma BlockedStart(coins: Option<set<Coin>>, before: map<Coin, Books.Book>, batch: BlockDiffBatch, all: set<Coin>)
    ensures Blocked(coins, before, before, batch, all - all, all)
  {}

  lemma BlockedStep(coins: Option<set<Coin>>, before: map<Coin, Books.Book>, now: map<Coin, Books.Book>,
                    batch: BlockDiffBatch, done: set<Coin>, todo: set<Coin>, coin: Coin)
    requires Blocked(coins, before, now, batch, done, todo) && coin in todo && coin !in done
    ensures var own := batch.(diffs := Spec.AllowedDiffs(coins, batch.diffs, coin));
      var now' := now[coin := Books.ApplyBlock(Spec.BookOf(now, coin), own)];
      Blocked(coins, before, now', batch, done + {coin}, todo - {coin})
  {}

  lemma BlockedEnd(
      coins: Option<set<Coin>>, before: map<Coin, Books.Book>, now: map<Coin, Books.Book>, batch: BlockDiffBatch,
      all: set<Coin>)
    requires Blocked(coins, before, now, batch, all, {}) && all == before.Keys + Spec.Named(coins, batch.diffs)
    ensures now == map c | c in before.Keys + Spec.Named(coins, batch.diffs) ::
              Books.ApplyBlock(Spec.BookOf(before, c), batch.(diffs := Spec.AllowedDiffs(coins, batch.diffs, c)))
  {}
}
