/** What prints and book updates do to one level, in closed form and order by order. */
module FifoLaws {
  import opened Schemas
  import opened Fifo

  // ---------- shape ----------

  lemma {:induction false} AscendingBounds(q: Queue, lo: int, hi: int, id: int)
    requires Ascending(q, lo, hi)
    ensures HasOwn(q, id) ==> lo < id < hi
    ensures !HasOwn(q, id) ==> Remaining(q, id) == 0.0
  {
    if q != [] {
      AscendingBounds(q[1..], if q[0].Own? then q[0].id else lo, hi, id);
    }
  }

  lemma {:induction false} QuotedHasOwn(q: Queue) returns (id: int)
    requires Quoted(q)
    ensures HasOwn(q, id)
  {
    if q[0].Own? { id := q[0].id; } else { id := QuotedHasOwn(q[1..]); }
  }

  lemma {:induction false} HasOwnQuoted(q: Queue, id: int)
    requires HasOwn(q, id)
    ensures Quoted(q)
  {
    if q[0].Real? { HasOwnQuoted(q[1..], id); }
  }

  lemma {:induction false} AppendLaw(q: Queue, s: Segment, lo: int, hi: int, id: int)
    requires Ascending(q, lo, hi)
    requires s.Own? ==> lo < s.id && hi <= s.id
    ensures s.Own? ==> Ascending(q + [s], lo, s.id + 1)
    ensures s.Real? ==> Ascending(q + [s], lo, hi)
    ensures HasOwn(q + [s], id) <==> HasOwn(q, id) || s == Own(id, s.sz)
    ensures s != Own(id, s.sz) ==> Remaining(q + [s], id) == Remaining(q, id)
    ensures HasOwn(q, id) ==>
      VolumeAhead(q + [s], id) == VolumeAhead(q, id) &&
      OwnAhead(q + [s], id) == OwnAhead(q, id) && RealBefore(q + [s], id) == RealBefore(q, id)
    ensures s == Own(id, s.sz) ==>
      Remaining(q + [s], id) == s.sz && VolumeAhead(q + [s], id) == TotalSize(q) &&
      RealBefore(q + [s], id) == RealSize(q)
    ensures RealSize(q + [s]) == RealSize(q) + if s.Real? then s.sz else 0.0
  {
    AscendingBounds(q, lo, hi, id);
    if q == [] {
      assert q + [s] == [s];
    } else {
      assert (q + [s])[1..] == q[1..] + [s];
      AppendLaw(q[1..], s, if q[0].Own? then q[0].id else lo, hi, id);
    }
  }

  /** With nothing consumed, what is ahead is everything real before the order. */
  lemma {:induction false} RealAheadFresh(q: Queue, id: int)
    ensures RealAhead(q, 0.0, id) == RealBefore(q, id)
  {
    if q != [] { RealAheadFresh(q[1..], id); }
  }

  /** What every reading of a queue makes of its first segment. */
  lemma ConsLaw(s: Segment, t: Queue, id: int)
    ensures var q := [s] + t; var found := s.Own? && s.id == id;
      && (HasOwn(q, id) <==> found || HasOwn(t, id))
      && Remaining(q, id) == (if found then s.sz else Remaining(t, id))
      && VolumeAhead(q, id) == (if found then 0.0 else s.sz + VolumeAhead(t, id))
      && RealBefore(q, id) == (if found then 0.0 else (if s.Real? then s.sz else 0.0) + RealBefore(t, id))
      && RealSize(q) == (if s.Real? then s.sz else 0.0) + RealSize(t)
  {
    assert ([s] + t)[1..] == t;
  }

  lemma ConsAscending(s: Segment, t: Queue, lo: int, hi: int)
    ensures Ascending([s] + t, lo, hi) <==>
            if s.Real? then Ascending(t, lo, hi) else lo < s.id < hi && Ascending(t, s.id, hi)
  {
    assert ([s] + t)[1..] == t;
  }

  /** All volume ahead is the real volume ahead plus the earlier own orders. */
  lemma {:induction false} AheadSplits(q: Queue, id: int)
    ensures VolumeAhead(q, id) == RealBefore(q, id) + OwnAhead(q, id)
    ensures RealBefore(q, id) <= RealSize(q)
  {
    if q != [] && !(q[0].Own? && q[0].id == id) {
      AheadSplits(q[1..], id);
    } else if q != [] {
      AheadSplits(q[1..], id);
    }
  }

  // ---------- prints ----------

  /** One segment of a walk at the price. */
  lemma WalkAtReal(exact: bool, oid: Option<int>, sz: Size, t: Queue, budget: Size, skip: Size, ahead: Size)
    requires budget > 0.0
    ensures var already := if exact then Min(sz, skip) else 0.0;
      var take := Min(budget, sz - already);
      var rest := WalkAt(exact, t, budget - take, skip - already, ahead + sz - already);
      WalkAt(exact, [Real(oid, sz)] + t, budget, skip, ahead) ==
      Walked([Real(oid, if exact then sz else sz - take)] + rest.queue,
             (if exact then take else 0.0) + rest.consumed, rest.fills)
  {
    assert ([Real(oid, sz)] + t)[1..] == t;
  }

  lemma WalkAtOwn(exact: bool, id: int, sz: Size, t: Queue, budget: Size, skip: Size, ahead: Size)
    requires budget > 0.0
    ensures var take := Min(budget, sz);
      var rest := WalkAt(exact, t, budget - take, skip, ahead);
      WalkAt(exact, [Own(id, sz)] + t, budget, skip, ahead) ==
      Walked([Own(id, sz - take)] + rest.queue, rest.consumed,
             (if take > 0.0 then [PartFill(id, take, ahead)] else []) + rest.fills)
  {
    assert ([Own(id, sz)] + t)[1..] == t;
    var rest := WalkAt(exact, t, budget - Min(budget, sz), skip, ahead);
    assert [] + rest.fills == rest.fills;
  }

  lemma WalkAtCons(s: Segment, t: Queue, budget: Size, ahead: Size)
    requires budget > 0.0
    ensures var take := Min(budget, s.sz);
      var rest := WalkAt(false, t, budget - take, 0.0, if s.Real? then ahead + s.sz else ahead);
      var w := WalkAt(false, [s] + t, budget, 0.0, ahead);
      w.queue == [s.(sz := s.sz - take)] + rest.queue && w.consumed == rest.consumed
  {
    match s
    case Real(oid, sz) => WalkAtReal(false, oid, sz, t, budget, 0.0, ahead);
    case Own(id, sz) => WalkAtOwn(false, id, sz, t, budget, 0.0, ahead);
  }

  /** What order `id` makes of a walk, in terms of what stands ahead of it. */
  ghost predicate PaidInTurn(q: Queue, after: Queue, budget: Size, id: int) {
    && VolumeAhead(after, id) == Max(0.0, VolumeAhead(q, id) - budget)
    && Remaining(after, id) == Max(0.0, Remaining(q, id) - Max(0.0, budget - VolumeAhead(q, id)))
    && RealBefore(after, id) <= RealBefore(q, id)
  }

  lemma PaidFirst(id: int, sz: Size, t: Queue, t': Queue, budget: Size)
    ensures PaidInTurn([Own(id, sz)] + t, [Own(id, sz - Min(budget, sz))] + t', budget, id)
  {
    hide VolumeAhead, Remaining, RealBefore, RealSize, HasOwn;
    ConsLaw(Own(id, sz), t, id);
    ConsLaw(Own(id, sz - Min(budget, sz)), t', id);
  }

  lemma PaidBehind(s: Segment, s': Segment, t: Queue, t': Queue, budget: Size, id: int)
    requires s'.Real? == s.Real? && (s.Own? ==> s'.id == s.id != id) && s'.sz == s.sz - Min(budget, s.sz)
    requires PaidInTurn(t, t', budget - Min(budget, s.sz), id)
    ensures PaidInTurn([s] + t, [s'] + t', budget, id)
  {
    hide VolumeAhead, Remaining, RealBefore, RealSize, HasOwn;
    ConsLaw(s, t, id);
    ConsLaw(s', t', id);
  }

  lemma NoWalk(q: Queue, budget: Size, ahead: Size, id: int)
    requires q == [] || budget <= 0.0
    ensures WalkAt(false, q, budget, 0.0, ahead) == Walked(q, 0.0, []) && PaidInTurn(q, q, budget, id)
  {}

  /** A print at the price takes `budget` off the front: each order loses what reaches past the volume ahead of it. */
  lemma {:induction false} WalkAtLaw(q: Queue, budget: Size, ahead: Size, id: int)
    ensures var w := WalkAt(false, q, budget, 0.0, ahead);
      VolumeAhead(w.queue, id) == Max(0.0, VolumeAhead(q, id) - budget) &&
      Remaining(w.queue, id) == Max(0.0, Remaining(q, id) - Max(0.0, budget - VolumeAhead(q, id))) &&
      RealBefore(w.queue, id) <= RealBefore(q, id) &&
      w.consumed == 0.0
  {
    hide WalkAt, VolumeAhead, Remaining, RealBefore;
    if q == [] || budget <= 0.0 {
      NoWalk(q, budget, ahead, id);
    } else {
      var s, t := q[0], q[1..];
      var take := Min(budget, s.sz);
      var later := if s.Real? then ahead + s.sz else ahead;
      var after := WalkAt(false, t, budget - take, 0.0, later).queue;
      assert q == [s] + t;
      WalkAtCons(s, t, budget, ahead);
      WalkAtLaw(t, budget - take, later, id);
      if s == Own(id, s.sz) {
        PaidFirst(id, s.sz, t, after, budget);
      } else {
        PaidBehind(s, s.(sz := s.sz - take), t, after, budget, id);
      }
    }
  }

  lemma FilledCons(part: PartFill, rest: seq<PartFill>, id: int)
    ensures FilledOf([part] + rest, id) == (if part.id == id then part.sz else 0.0) + FilledOf(rest, id)
    ensures FilledOf([], id) == 0.0
  {
    assert ([part] + rest)[1..] == rest;
  }

  /** Whatever the mode, a walk neither adds nor reorders orders, and what an order loses is what it is paid. */
  lemma {:induction false} WalkAtPays(exact: bool, q: Queue, budget: Size, skip: Size, ahead: Size,
                                      lo: int, hi: int, id: int)
    requires Ascending(q, lo, hi)
    ensures var w := WalkAt(exact, q, budget, skip, ahead);
      Ascending(w.queue, lo, hi) && (HasOwn(w.queue, id) <==> HasOwn(q, id)) &&
      FilledOf(w.fills, id) + Remaining(w.queue, id) == Remaining(q, id)
    decreases |q|, 1
  {
    if q != [] && budget > 0.0 {
      var t := q[1..];
      assert q == [q[0]] + t;
      match q[0]
      case Real(oid, sz) => RealPays(exact, oid, sz, t, budget, skip, ahead, lo, hi, id);
      case Own(a, sz) => OwnPays(exact, a, sz, t, budget, skip, ahead, lo, hi, id);
    }
  }

  lemma {:induction false} RealPays(exact: bool, oid: Option<int>, sz: Size, t: Queue, budget: Size, skip: Size,
                                    ahead: Size, lo: int, hi: int, id: int)
    requires Ascending([Real(oid, sz)] + t, lo, hi) && budget > 0.0
    ensures var q := [Real(oid, sz)] + t; var w := WalkAt(exact, q, budget, skip, ahead);
      Ascending(w.queue, lo, hi) && (HasOwn(w.queue, id) <==> HasOwn(q, id)) &&
      FilledOf(w.fills, id) + Remaining(w.queue, id) == Remaining(q, id)
    decreases |t| + 1, 0
  {
    hide WalkAt, Ascending, HasOwn, Remaining, FilledOf, VolumeAhead, RealBefore, RealSize;
    var already := if exact then Min(sz, skip) else 0.0;
    var take := Min(budget, sz - already);
    var rest := WalkAt(exact, t, budget - take, skip - already, ahead + sz - already);
    var s' := Real(oid, if exact then sz else sz - take);
    WalkAtReal(exact, oid, sz, t, budget, skip, ahead);
    ConsAscending(Real(oid, sz), t, lo, hi);
    ConsAscending(s', rest.queue, lo, hi);
    ConsLaw(Real(oid, sz), t, id);
    ConsLaw(s', rest.queue, id);
    WalkAtPays(exact, t, budget - take, skip - already, ahead + sz - already, lo, hi, id);
  }

  lemma {:induction false} OwnPays(exact: bool, a: int, sz: Size, t: Queue, budget: Size, skip: Size,
                                   ahead: Size, lo: int, hi: int, id: int)
    requires Ascending([Own(a, sz)] + t, lo, hi) && budget > 0.0
    ensures var q := [Own(a, sz)] + t; var w := WalkAt(exact, q, budget, skip, ahead);
      Ascending(w.queue, lo, hi) && (HasOwn(w.queue, id) <==> HasOwn(q, id)) &&
      FilledOf(w.fills, id) + Remaining(w.queue, id) == Remaining(q, id)
    decreases |t| + 1, 0
  {
    hide WalkAt, Ascending, HasOwn, Remaining, FilledOf, VolumeAhead, RealBefore, RealSize;
    var take := Min(budget, sz);
    var rest := WalkAt(exact, t, budget - take, skip, ahead);
    WalkAtOwn(exact, a, sz, t, budget, skip, ahead);
    ConsAscending(Own(a, sz), t, lo, hi);
    ConsAscending(Own(a, sz - take), rest.queue, lo, hi);
    ConsLaw(Own(a, sz), t, id);
    ConsLaw(Own(a, sz - take), rest.queue, id);
    AscendingBounds(t, a, hi, id);
    WalkAtPays(exact, t, budget - take, skip, ahead, a, hi, id);
    FilledCons(PartFill(a, take, ahead), rest.fills, id);
    assert [] + rest.fills == rest.fills;
  }

  lemma {:induction false} WalkThroughPays(exact: bool, q: Queue, skip: Size, ahead: Size, lo: int, hi: int, id: int)
    requires Ascending(q, lo, hi)
    ensures var w := WalkThrough(exact, q, skip, ahead);
      Ascending(w.queue, lo, hi) && (HasOwn(w.queue, id) <==> HasOwn(q, id)) && w.consumed == 0.0 &&
      Remaining(w.queue, id) == 0.0 && FilledOf(w.fills, id) == Remaining(q, id)
  {
    if q != [] {
      match q[0]
      case Real(_, sz) =>
        var already := if exact then Min(sz, skip) else 0.0;
        WalkThroughPays(exact, q[1..], skip - already, ahead + sz - already, lo, hi, id);
      case Own(a, sz) =>
        AscendingBounds(q[1..], a, hi, id);
        WalkThroughPays(exact, q[1..], skip, ahead, a, hi, id);
    }
  }

  /** The sweep removes exactly the orders with nothing left and moves nobody. */
  lemma {:induction false} SweepLaw(exact: bool, q: Queue, lo: int, hi: int, id: int)
    requires Ascending(q, lo, hi)
    ensures Ascending(Sweep(exact, q), lo, hi)
    ensures HasOwn(Sweep(exact, q), id) <==> HasOwn(q, id) && Remaining(q, id) > 0.0
    ensures id in Emptied(q) <==> HasOwn(q, id) && Remaining(q, id) <= 0.0
    ensures Remaining(Sweep(exact, q), id) == Remaining(q, id)
    ensures HasOwn(Sweep(exact, q), id) ==> VolumeAhead(Sweep(exact, q), id) == VolumeAhead(q, id)
    ensures HasOwn(Sweep(exact, q), id) ==> RealBefore(Sweep(exact, q), id) == RealBefore(q, id)
    ensures RealSize(Sweep(exact, q)) == RealSize(q)
  {
    if q != [] {
      var lo' := if q[0].Own? then q[0].id else lo;
      AscendingBounds(q[1..], lo', hi, id);
      SweepLaw(exact, q[1..], lo', hi, id);
      SweepWeaken(exact, q[1..], lo, lo', hi);
      if q[0].sz > 0.0 || (q[0].Real? && exact) {
        assert Sweep(exact, q)[1..] == Sweep(exact, q[1..]);
      }
    }
  }

  lemma {:induction false} SweepWeaken(exact: bool, q: Queue, lo: int, lo': int, hi: int)
    requires lo <= lo' && Ascending(Sweep(exact, q), lo', hi)
    ensures Ascending(Sweep(exact, q), lo, hi)
  {
    Weaken(Sweep(exact, q), lo, lo', hi, hi);
  }

  lemma {:induction false} Weaken(q: Queue, lo: int, lo': int, hi': int, hi: int)
    requires lo <= lo' && hi' <= hi && Ascending(q, lo', hi')
    ensures Ascending(q, lo, hi)
  {
    if q != [] {
      if q[0].Real? { Weaken(q[1..], lo, lo', hi', hi); } else { Weaken(q[1..], q[0].id, q[0].id, hi', hi); }
    }
  }
}
