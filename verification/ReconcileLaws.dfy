/** Where each bound leaves an order's real queue-ahead when the visible size changes. */
module ReconcileLaws {
  import opened Schemas
  import opened Fifo
  import opened FifoLaws

  lemma {:induction false} DropEmptyLaw(q: Queue, lo: int, hi: int, id: int)
    requires Ascending(q, lo, hi)
    ensures var d := DropEmptyReal(q);
      Ascending(d, lo, hi) && (HasOwn(d, id) <==> HasOwn(q, id)) && Remaining(d, id) == Remaining(q, id) &&
      RealBefore(d, id) == RealBefore(q, id) && RealSize(d) == RealSize(q)
  {
    if q != [] {
      DropEmptyLaw(q[1..], if q[0].Own? then q[0].id else lo, hi, id);
    }
  }

  lemma {:induction false} RemoveFrontLaw(q: Queue, volume: Size, lo: int, hi: int, id: int)
    requires Ascending(q, lo, hi)
    ensures var r := RemoveFront(q, volume);
      Ascending(r, lo, hi) && (HasOwn(r, id) <==> HasOwn(q, id)) && Remaining(r, id) == Remaining(q, id) &&
      RealBefore(r, id) == Max(0.0, RealBefore(q, id) - volume) &&
      RealSize(r) == Max(0.0, RealSize(q) - volume)
  {
    if q != [] {
      hide HasOwn, Remaining, RealBefore, RealSize, Ascending;
      var s, t := q[0], q[1..];
      var left := if s.Own? then volume else volume - Min(s.sz, volume);
      var s' := if s.Own? then s else Real(s.oid, s.sz - Min(s.sz, volume));
      assert q == [s] + t && RemoveFront(q, volume) == [s'] + RemoveFront(t, left);
      ConsAscending(s, t, lo, hi);
      ConsAscending(s', RemoveFront(t, left), lo, hi);
      RemoveFrontLaw(t, left, if s.Own? then s.id else lo, hi, id);
      ConsLaw(s, t, id);
      ConsLaw(s', RemoveFront(t, left), id);
      hide RemoveFront;
    }
  }

  /** What a removal of `volume` leaves of one segment. */
  function Trimmed(h: Segment, volume: real): Segment {
    if h.Own? then h else Real(h.oid, h.sz - Min(h.sz, Max(0.0, volume)))
  }

  /** The volume left once segment `last` was trimmed. */
  function LeftOver(last: Segment, volume: Size): Size {
    if last.Own? then volume else volume - Min(last.sz, volume)
  }

  lemma RemoveBackLast(q: Queue, last: Segment, volume: Size)
    ensures RemoveBack(q + [last], volume) == RemoveBack(q, LeftOver(last, volume)) + [Trimmed(last, volume)]
  {
    assert (q + [last])[..|q|] == q;
  }

  lemma RemoveBackOne(h: Segment, volume: Size)
    ensures RemoveBack([h] + [], volume) == [Trimmed(h, volume)] && RealSize([]) == 0.0 && RemoveBack([], volume) == []
  {
    assert [h] + [] == [h] && [h][..0] == [];
  }

  lemma TrimmedLater(h: Segment, front: Queue, last: Segment, volume: Size)
    ensures Trimmed(h, LeftOver(last, volume) - RealSize(front)) == Trimmed(h, volume - RealSize(front + [last]))
  {
    RealSizeAppend(front, last);
  }

  lemma Outwards(x: Queue, a: Segment, b: Segment)
    ensures ([a] + x) + [b] == [a] + (x + [b])
  {}

  /** Seen from the front: the first segment gives up only what the rest of the queue could not. */
  lemma {:induction false} RemoveBackFromFront(h: Segment, t: Queue, volume: Size)
    ensures RemoveBack([h] + t, volume) == [Trimmed(h, volume - RealSize(t))] + RemoveBack(t, volume)
    decreases |t|
  {
    hide *;
    if t == [] {
      RemoveBackOne(h, volume);
      assert [Trimmed(h, volume)] + [] == [Trimmed(h, volume)];
    } else {
      var front, last := t[..|t| - 1], t[|t| - 1];
      assert t == front + [last];
      Outwards(front, h, last);
      RemoveBackLast(front, last, volume);
      RemoveBackLast([h] + front, last, volume);
      RemoveBackFromFront(h, front, LeftOver(last, volume));
      TrimmedLater(h, front, last, volume);
      Outwards(RemoveBack(front, LeftOver(last, volume)), Trimmed(h, volume - RealSize(t)), Trimmed(last, volume));
    }
  }

  lemma {:induction false} RealSizeAppend(q: Queue, s: Segment)
    ensures RealSize(q + [s]) == RealSize(q) + if s.Real? then s.sz else 0.0
  {
    if q == [] { assert q + [s] == [s]; } else {
      assert (q + [s])[1..] == q[1..] + [s];
      RealSizeAppend(q[1..], s);
    }
  }

  lemma {:induction false} RemoveBackLaw(q: Queue, volume: Size, lo: int, hi: int, id: int)
    requires Ascending(q, lo, hi)
    ensures var r := RemoveBack(q, volume);
      Ascending(r, lo, hi) && (HasOwn(r, id) <==> HasOwn(q, id)) && Remaining(r, id) == Remaining(q, id) &&
      RealBefore(r, id) == Min(RealBefore(q, id), Max(0.0, RealSize(q) - volume)) &&
      RealSize(r) == Max(0.0, RealSize(q) - volume)
  {
    if q != [] {
      assert q == [q[0]] + q[1..];
      hide HasOwn, Remaining, RealBefore, RealSize, Ascending, RemoveBack;
      var s, t := q[0], q[1..];
      var s' := Trimmed(s, volume - RealSize(t));
      RemoveBackFromFront(s, t, volume);
      ConsAscending(s, t, lo, hi);
      ConsAscending(s', RemoveBack(t, volume), lo, hi);
      RemoveBackLaw(t, volume, if s.Own? then s.id else lo, hi, id);
      ConsLaw(s, t, id);
      ConsLaw(s', RemoveBack(t, volume), id);
      AheadSplits(t, id);
    }
  }

  lemma {:induction false} ScaleShape(q: Queue, factor: Size, lo: int, hi: int, id: int)
    requires Ascending(q, lo, hi)
    ensures var r := Scale(q, factor);
      Ascending(r, lo, hi) && (HasOwn(r, id) <==> HasOwn(q, id)) && Remaining(r, id) == Remaining(q, id)
  {
    if q != [] {
      ScaleShape(q[1..], factor, if q[0].Own? then q[0].id else lo, hi, id);
    }
  }

  lemma ScaledLaws(x: Size, y: Size, f: Size)
    ensures Scaled(x, f) + Scaled(y, f) == Scaled(x + y, f)
    ensures f <= 1.0 ==> Scaled(x, f) <= x
    ensures Scaled(0.0, f) == 0.0
  {}

  lemma {:induction false} ScaleRealSize(q: Queue, factor: Size)
    ensures RealSize(Scale(q, factor)) == Scaled(RealSize(q), factor)
  {
    hide Scaled;
    if q == [] {
      ScaledLaws(0.0, 0.0, factor);
    } else {
      ScaleRealSize(q[1..], factor);
      assert Scale(q, factor)[1..] == Scale(q[1..], factor);
      ScaledLaws(if q[0].Real? then q[0].sz else 0.0, RealSize(q[1..]), factor);
    }
  }

  /** A uniform cut shrinks every segment, so what stands ahead of an order loses no more than the whole level does. */
  lemma {:induction false} ScaleShrinks(q: Queue, factor: Size, id: int)
    requires factor <= 1.0
    ensures var s := Scale(q, factor);
      RealBefore(s, id) <= RealBefore(q, id) && RealSize(s) <= RealSize(q) &&
      RealBefore(q, id) - RealBefore(s, id) <= RealSize(q) - RealSize(s)
  {
    hide Scaled;
    if q != [] {
      ScaleShrinks(q[1..], factor, id);
      assert Scale(q, factor)[1..] == Scale(q[1..], factor);
      ScaledLaws(q[0].sz, 0.0, factor);
    }
  }

  lemma SurvivalShare(total: Size, volume: Size)
    requires 0.0 < volume <= total
    ensures var f := Survival(total, volume); f <= 1.0 && Scaled(total, f) == total - volume
  {
    var x := volume / total;
    assert x * total == volume;
    assert 0.0 < x <= 1.0;
  }

  lemma ProRataLaw(q: Queue, volume: Size, lo: int, hi: int, id: int)
    requires Ascending(q, lo, hi) && 0.0 < volume <= RealSize(q)
    ensures var r := RemoveReal(ProRata, q, volume); var a := RealBefore(q, id);
      Ascending(r, lo, hi) && (HasOwn(r, id) <==> HasOwn(q, id)) && Remaining(r, id) == Remaining(q, id) &&
      RealSize(r) == RealSize(q) - volume && a - volume <= RealBefore(r, id) <= Min(a, RealSize(q) - volume)
  {
    hide Scaled, Survival;
    var f := Survival(RealSize(q), volume);
    SurvivalShare(RealSize(q), volume);
    var s := Scale(q, f);
    ScaleRealSize(q, f);
    ScaleShrinks(q, f, id);
    AheadSplits(s, id);
    ScaleShape(q, f, lo, hi, id);
    DropEmptyLaw(s, lo, hi, id);
  }

  /**
   * A book update to `visible`: the tracked real size becomes exactly that, no order changes, and the
   * real volume ahead of order `id` ends up where the bound says.
   */
  lemma {:induction false} ReconcileLaw(bound: Bound, q: Queue, visible: Size, lo: int, hi: int, id: int)
    requires Ascending(q, lo, hi) && bound != Exact
    ensures var r := Reconcile(bound, q, visible);
      Ascending(r, lo, hi) && (HasOwn(r, id) <==> HasOwn(q, id)) && Remaining(r, id) == Remaining(q, id) &&
      RealSize(r) == visible
    ensures HasOwn(q, id) ==>
      var a, a', total := RealBefore(q, id), RealBefore(Reconcile(bound, q, visible), id), RealSize(q);
      a' <= Min(a, visible) &&
      (bound == Pessimistic ==> a' == Min(a, visible)) &&
      (bound == Optimistic ==> a' == if visible < total then Max(0.0, a - (total - visible)) else a) &&
      (bound == ProRata ==> a' >= if visible < total then a - (total - visible) else a)
  {
    hide RemoveFront, RemoveBack, DropEmptyReal, RealSize, RealBefore, HasOwn, Remaining, Ascending;
    var tracked := RealSize(q);
    AheadSplits(q, id);
    if visible > tracked {
      AppendLaw(q, Real(None, visible - tracked), lo, hi, id);
      AscendingBounds(q, lo, hi, id);
      AscendingBounds(q + [Real(None, visible - tracked)], lo, hi, id);
    } else if visible < tracked {
      var volume := tracked - visible;
      match bound
      case ProRata => ProRataLaw(q, volume, lo, hi, id);
      case Pessimistic =>
        RemoveBackLaw(q, volume, lo, hi, id);
        DropEmptyLaw(RemoveBack(q, volume), lo, hi, id);
      case Optimistic =>
        RemoveFrontLaw(q, volume, lo, hi, id);
        DropEmptyLaw(RemoveFront(q, volume), lo, hi, id);
    }
  }

  lemma {:induction false} ScaleBefore(q: Queue, factor: Size, id: int)
    ensures RealBefore(Scale(q, factor), id) == Scaled(RealBefore(q, id), factor)
  {
    hide Scaled;
    ScaledLaws(0.0, 0.0, factor);
    if q != [] {
      ScaleBefore(q[1..], factor, id);
      assert Scale(q, factor)[1..] == Scale(q[1..], factor);
      ScaledLaws(q[0].sz, RealBefore(q[1..], id), factor);
    }
  }

  lemma ShareOfShare(a: Size, f: Size, total: Size, visible: Size)
    requires Scaled(total, f) == visible
    ensures Scaled(Scaled(a, f), total) == Scaled(a, visible)
  {
    assert a * f * total == a * (total * f);
  }

  /** What pro-rata removal leaves ahead of an order. */
  lemma ProRataBefore(q: Queue, visible: Size, lo: int, hi: int, id: int)
    requires Ascending(q, lo, hi) && visible < RealSize(q)
    ensures RealBefore(Reconcile(ProRata, q, visible), id) ==
      Scaled(RealBefore(q, id), Survival(RealSize(q), RealSize(q) - visible))
  {
    hide Scaled, Survival, Scale, DropEmptyReal, RealSize;
    var f := Survival(RealSize(q), RealSize(q) - visible);
    ScaleBefore(q, f, id);
    ScaleShape(q, f, lo, hi, id);
    DropEmptyLaw(Scale(q, f), lo, hi, id);
  }

  /** Under PRORATA the real volume ahead of every order keeps its share of the level as the level shrinks. */
  lemma ProRataKeepsShare(q: Queue, visible: Size, lo: int, hi: int, id: int)
    requires Ascending(q, lo, hi) && visible < RealSize(q)
    ensures Scaled(RealBefore(Reconcile(ProRata, q, visible), id), RealSize(q)) == Scaled(RealBefore(q, id), visible)
  {
    hide *;
    ProRataBefore(q, visible, lo, hi, id);
    SurvivalShare(RealSize(q), RealSize(q) - visible);
    ShareOfShare(RealBefore(q, id), Survival(RealSize(q), RealSize(q) - visible), RealSize(q), visible);
  }
}
