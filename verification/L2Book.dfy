/** The aggregated book, replaced whole by every snapshot, and its agreement with the order-level book. */
module L2 {
  import opened Schemas
  import opened OrderList
  import Spec = BookState
  import Q = QueueState

  /** A level as received; what does not parse is counted and skipped. */
  datatype RawLevel = Parsed(row: Row) | Malformed

  function Kept(raw: seq<RawLevel>): seq<Row> {
    if raw == [] then [] else if raw[0].Parsed? then [raw[0].row] + Kept(raw[1..]) else Kept(raw[1..])
  }

  function Bad(raw: seq<RawLevel>): nat {
    if raw == [] then 0 else (if raw[0].Malformed? then 1 else 0) + Bad(raw[1..])
  }

  // ---------- the stable sort by price ----------

  function InsertRow(side: Side, row: Row, sorted: seq<Row>): seq<Row> {
    if sorted == [] || Rank(side, row.px) <= Rank(side, sorted[0].px) then [row] + sorted
    else [sorted[0]] + InsertRow(side, row, sorted[1..])
  }

  function SortRows(side: Side, rows: seq<Row>): seq<Row> {
    if rows == [] then [] else InsertRow(side, rows[0], SortRows(side, rows[1..]))
  }

  ghost predicate BestFirst(side: Side, rows: seq<Row>) {
    forall i, j :: 0 <= i < j < |rows| ==> Rank(side, rows[i].px) <= Rank(side, rows[j].px)
  }

  function AtPrice(rows: seq<Row>, px: Price): seq<Row> {
    if rows == [] then [] else if rows[0].px == px then [rows[0]] + AtPrice(rows[1..], px) else AtPrice(rows[1..], px)
  }

  lemma {:induction false} InsertKeeps(side: Side, row: Row, sorted: seq<Row>)
    ensures multiset(InsertRow(side, row, sorted)) == multiset([row]) + multiset(sorted)
  {
    if sorted != [] && Rank(side, row.px) > Rank(side, sorted[0].px) {
      InsertKeeps(side, row, sorted[1..]);
      assert sorted == [sorted[0]] + sorted[1..];
    }
  }

  lemma {:induction false} InsertOrdered(side: Side, row: Row, sorted: seq<Row>)
    requires BestFirst(side, sorted)
    ensures BestFirst(side, InsertRow(side, row, sorted))
  {
    if sorted != [] && Rank(side, row.px) > Rank(side, sorted[0].px) {
      var h, t := sorted[0], sorted[1..];
      InsertOrdered(side, row, t);
      InsertKeeps(side, row, t);
      var r := InsertRow(side, row, t);
      forall j | 0 <= j < |r| ensures Rank(side, h.px) <= Rank(side, r[j].px) {
        assert r[j] in multiset(r);
        assert r[j] == row || r[j] in t;
      }
    }
  }

  /** Among rows of one price the inserted row goes first. */
  lemma {:induction false} InsertStable(side: Side, row: Row, sorted: seq<Row>, px: Price)
    requires BestFirst(side, sorted)
    ensures AtPrice(InsertRow(side, row, sorted), px) == (if row.px == px then [row] else []) + AtPrice(sorted, px)
  {
    if sorted == [] || Rank(side, row.px) <= Rank(side, sorted[0].px) {
      assert ([row] + sorted)[1..] == sorted;
    } else {
      var r := InsertRow(side, row, sorted[1..]);
      InsertStable(side, row, sorted[1..], px);
      assert ([sorted[0]] + r)[1..] == r;
    }
  }

  /** The sort is best first, loses nothing, and keeps rows of one price in the order they came. */
  lemma {:induction false} SortLaw(side: Side, rows: seq<Row>, px: Price)
    ensures var r := SortRows(side, rows);
      BestFirst(side, r) && multiset(r) == multiset(rows) && AtPrice(r, px) == AtPrice(rows, px)
  {
    if rows != [] {
      SortLaw(side, rows[1..], px);
      InsertKeeps(side, rows[0], SortRows(side, rows[1..]));
      InsertOrdered(side, rows[0], SortRows(side, rows[1..]));
      InsertStable(side, rows[0], SortRows(side, rows[1..]), px);
      assert rows == [rows[0]] + rows[1..];
    }
  }

  lemma {:induction false} SortSorted(side: Side, rows: seq<Row>)
    requires BestFirst(side, rows)
    ensures SortRows(side, rows) == rows
  {
    if rows != [] {
      SortSorted(side, rows[1..]);
      assert |rows| > 1 ==> rows[1..][0] == rows[1];
    }
  }

  class L2Book {
    var lastUpdateMs: int
    var anomalyCount: nat
    var bids: seq<Row>
    var asks: seq<Row>

    constructor ()
      ensures View() == BookView([], [], None) && anomalyCount == 0
    {
      lastUpdateMs := 0;
      anomalyCount := 0;
      bids := [];
      asks := [];
    }

    function View(): BookView
      reads this
    {
      BookView(bids, asks, None)
    }

    method ParseSide(raw: seq<RawLevel>, side: Side) returns (parsed: seq<Row>)
      modifies this`anomalyCount
      ensures parsed == SortRows(side, Kept(raw)) && anomalyCount == old(anomalyCount) + Bad(raw)
    {
      parsed := [];
      var i := 0;
      while i < |raw|
        invariant 0 <= i <= |raw|
        invariant Kept(raw) == parsed + Kept(raw[i..])
        invariant old(anomalyCount) + Bad(raw) == anomalyCount + Bad(raw[i..])
      {
        assert raw[i..][0] == raw[i] && raw[i..][1..] == raw[i + 1..];
        if raw[i].Parsed? {
          parsed := parsed + [raw[i].row];
        } else {
          anomalyCount := anomalyCount + 1;
        }
        i := i + 1;
      }
      assert raw[i..] == [] && parsed == Kept(raw);
      parsed := SortRows(side, parsed);
    }

    /** Replaces the whole book with one snapshot. */
    method UpdateFromSnapshot(rawBids: seq<RawLevel>, rawAsks: seq<RawLevel>, timeMs: int)
      modifies this
      ensures View() == BookView(SortRows(Bid, Kept(rawBids)), SortRows(Ask, Kept(rawAsks)), None)
      ensures anomalyCount == old(anomalyCount) + Bad(rawBids) + Bad(rawAsks) && lastUpdateMs == timeMs
    {
      bids := ParseSide(rawBids, Bid);
      asks := ParseSide(rawAsks, Ask);
      lastUpdateMs := timeMs;
    }
  }

  // ---------- agreement with the order-level book ----------

  function Feed(rows: seq<Row>): seq<RawLevel> {
    if rows == [] then [] else [Parsed(rows[0])] + Feed(rows[1..])
  }

  lemma {:induction false} FeedKept(rows: seq<Row>)
    ensures Kept(Feed(rows)) == rows && Bad(Feed(rows)) == 0
  {
    if rows != [] { FeedKept(rows[1..]); }
  }

  /** Fed the full depth of an order-level book, the aggregated book shows the same rows, so every read agrees. */
  lemma FullDepthAgrees(b: Orders)
    ensures var seen := Spec.ViewOf(b);
      var l2 := BookView(SortRows(Bid, Kept(Feed(seen.bids))), SortRows(Ask, Kept(Feed(seen.asks))), None);
      l2.bids == seen.bids && l2.asks == seen.asks &&
      l2.BestBid() == seen.BestBid() && l2.BestAsk() == seen.BestAsk() && l2.Mid() == seen.Mid() &&
      l2.IsCrossed() == seen.IsCrossed()
  {
    hide Spec.Rows, SortRows, Kept, Feed;
    SideAgrees(b, Bid);
    SideAgrees(b, Ask);
  }

  lemma SideAgrees(b: Orders, side: Side)
    ensures SortRows(side, Kept(Feed(Spec.Rows(b, side)))) == Spec.Rows(b, side)
  {
    hide Spec.Rows;
    FeedKept(Spec.Rows(b, side));
    Spec.RowsSorted(b, side);
    SortSorted(side, Spec.Rows(b, side));
  }

  lemma {:induction false} DepthMapLaw(rows: seq<Row>, px: Price)
    requires forall i, j :: 0 <= i < j < |rows| ==> rows[i].px != rows[j].px
    ensures px in Q.DepthMap(rows) <==> exists i :: 0 <= i < |rows| && rows[i].px == px
    ensures forall i :: 0 <= i < |rows| && rows[i].px == px ==>
      px in Q.DepthMap(rows) && Q.DepthMap(rows)[px] == rows[i].sz
  {
    if rows != [] {
      var n := |rows| - 1;
      DepthMapLaw(rows[..n], px);
      if rows[n].px != px {
        if i :| 0 <= i < |rows| && rows[i].px == px { assert rows[..n][i].px == px; }
        if i :| 0 <= i < n && rows[..n][i].px == px { assert rows[i].px == px; }
      }
    }
  }

  /** The size the simulator sees at a price is everything that rests there. */
  lemma VisibleIsTheLevel(b: Orders, key: Key)
    ensures Q.VisibleIn(Spec.ViewOf(b), key) == SumSizes(LevelOf(b, key))
  {
    var rows := Spec.Rows(b, key.side);
    Spec.RowsSorted(b, key.side);
    DepthMapLaw(rows, key.px);
    Spec.RowsComplete(b, key);
    if i :| 0 <= i < |rows| && rows[i].px == key.px { assert rows[i] == Spec.RowAt(b, key); }
  }
}
