/**
 * One tracked price level as a merged FIFO of real volume and virtual orders,
 * front of the queue first, and the three things that happen to it: a print at
 * its price, a print through it, and a book update.
 */
module Fifo {
  import opened Schemas

  datatype Segment = Real(oid: Option<int>, sz: Size) | Own(id: int, sz: Size)

  type Queue = seq<Segment>

  /** A level's FIFO and, in EXACT mode, the real volume this block's prints have already walked past. */
  datatype LevelState = LevelState(queue: Queue, consumed: Size)

  // ---------- what a level says about an order ----------

  predicate HasOwn(q: Queue, id: int) {
    q != [] && ((q[0].Own? && q[0].id == id) || HasOwn(q[1..], id))
  }

  predicate Quoted(q: Queue) {
    q != [] && (q[0].Own? || Quoted(q[1..]))
  }

  /** Unfilled size of order `id`; 0 when it is not here. */
  function Remaining(q: Queue, id: int): Size {
    if q == [] then 0.0
    else if q[0].Own? && q[0].id == id then q[0].sz
    else Remaining(q[1..], id)
  }

  /** Everything, real and own, ahead of order `id`. */
  function VolumeAhead(q: Queue, id: int): Size {
    if q == [] || (q[0].Own? && q[0].id == id) then 0.0
    else q[0].sz + VolumeAhead(q[1..], id)
  }

  /** Real volume ahead of order `id` once `consumed` of it has been walked past. */
  function RealAhead(q: Queue, consumed: Size, id: int): Size {
    if q == [] || (q[0].Own? && q[0].id == id) then 0.0
    else if q[0].Own? then RealAhead(q[1..], consumed, id)
    else
      var take := Min(q[0].sz, consumed);
      q[0].sz - take + RealAhead(q[1..], consumed - take, id)
  }

  /** Real volume ahead of order `id`. */
  function RealBefore(q: Queue, id: int): Size {
    if q == [] || (q[0].Own? && q[0].id == id) then 0.0
    else if q[0].Own? then RealBefore(q[1..], id)
    else q[0].sz + RealBefore(q[1..], id)
  }

  function OwnAhead(q: Queue, id: int): Size {
    if q == [] || (q[0].Own? && q[0].id == id) then 0.0
    else (if q[0].Own? then q[0].sz else 0.0) + OwnAhead(q[1..], id)
  }

  function RealSize(q: Queue): Size {
    if q == [] then 0.0 else (if q[0].Real? then q[0].sz else 0.0) + RealSize(q[1..])
  }

  function TotalSize(q: Queue): Size {
    if q == [] then 0.0 else q[0].sz + TotalSize(q[1..])
  }

  /** Own orders stand in id order and their ids lie strictly between `lo` and `hi`. */
  predicate Ascending(q: Queue, lo: int, hi: int) {
    q == [] || if q[0].Real? then Ascending(q[1..], lo, hi)
               else lo < q[0].id < hi && Ascending(q[1..], q[0].id, hi)
  }

  // ---------- a print ----------

  /** One order's share of a print and the real volume that stood ahead of it on arrival. */
  datatype PartFill = PartFill(id: int, sz: Size, ahead: Size)

  datatype Walked = Walked(queue: Queue, consumed: Size, fills: seq<PartFill>)

  function FilledOf(fills: seq<PartFill>, id: int): Size {
    if fills == [] then 0.0
    else (if fills[0].id == id then fills[0].sz else 0.0) + FilledOf(fills[1..], id)
  }

  function FilledTotal(fills: seq<PartFill>): Size {
    if fills == [] then 0.0 else fills[0].sz + FilledTotal(fills[1..])
  }

  /** The walk of a print at this very price: front first until the print's size is used up. */
  function WalkAt(exact: bool, q: Queue, budget: Size, skip: Size, ahead: Size): Walked {
    if q == [] || budget <= 0.0 then Walked(q, 0.0, [])
    else match q[0]
      case Real(oid, sz) =>
        var already := if exact then Min(sz, skip) else 0.0;
        var take := Min(budget, sz - already);
        var rest := WalkAt(exact, q[1..], budget - take, skip - already, ahead + sz - already);
        Walked([if exact then q[0] else Real(oid, sz - take)] + rest.queue,
               (if exact then take else 0.0) + rest.consumed, rest.fills)
      case Own(id, sz) =>
        var take := Min(budget, sz);
        var rest := WalkAt(exact, q[1..], budget - take, skip, ahead);
        Walked([Own(id, sz - take)] + rest.queue, rest.consumed,
               if take > 0.0 then [PartFill(id, take, ahead)] + rest.fills else rest.fills)
  }

  /** The walk of a print at a worse price: every virtual order here fills. */
  function WalkThrough(exact: bool, q: Queue, skip: Size, ahead: Size): Walked {
    if q == [] then Walked(q, 0.0, [])
    else match q[0]
      case Real(_, sz) =>
        var already := if exact then Min(sz, skip) else 0.0;
        var rest := WalkThrough(exact, q[1..], skip - already, ahead + sz - already);
        rest.(queue := [q[0]] + rest.queue)
      case Own(id, sz) =>
        var rest := WalkThrough(exact, q[1..], skip, ahead);
        Walked([Own(id, 0.0)] + rest.queue, rest.consumed,
               if sz > 0.0 then [PartFill(id, sz, ahead)] + rest.fills else rest.fills)
  }

  /** Drops what a print emptied; EXACT keeps real segments, the block's diffs settle them. */
  function Sweep(exact: bool, q: Queue): Queue {
    if q == [] then []
    else if q[0].sz > 0.0 || (q[0].Real? && exact) then [q[0]] + Sweep(exact, q[1..])
    else Sweep(exact, q[1..])
  }

  function Emptied(q: Queue): set<int> {
    if q == [] then {}
    else (if q[0].Own? && q[0].sz <= 0.0 then {q[0].id} else {}) + Emptied(q[1..])
  }

  datatype Print = At(sz: Size) | Through

  function Walk(exact: bool, s: LevelState, p: Print): Walked {
    var skip := if exact then s.consumed else 0.0;
    match p
    case At(sz) => WalkAt(exact, s.queue, sz, skip, 0.0)
    case Through => WalkThrough(exact, s.queue, skip, 0.0)
  }

  /** The level a print leaves behind. */
  function AfterPrint(exact: bool, s: LevelState, p: Print): LevelState {
    var w := Walk(exact, s, p);
    LevelState(Sweep(exact, w.queue), s.consumed + w.consumed)
  }

  // ---------- a book update ----------

  function RemoveFront(q: Queue, volume: Size): Queue {
    if q == [] then []
    else if q[0].Own? then [q[0]] + RemoveFront(q[1..], volume)
    else
      var take := Min(q[0].sz, volume);
      [Real(q[0].oid, q[0].sz - take)] + RemoveFront(q[1..], volume - take)
  }

  function RemoveBack(q: Queue, volume: Size): Queue {
    if q == [] then []
    else
      var n := |q| - 1;
      if q[n].Own? then RemoveBack(q[..n], volume) + [q[n]]
      else
        var take := Min(q[n].sz, volume);
        RemoveBack(q[..n], volume - take) + [Real(q[n].oid, q[n].sz - take)]
  }

  function Scaled(sz: Size, factor: Size): Size {
    sz * factor
  }

  function Scale(q: Queue, factor: Size): Queue {
    if q == [] then []
    else [if q[0].Own? then q[0] else Real(q[0].oid, Scaled(q[0].sz, factor))] + Scale(q[1..], factor)
  }

  /** Keeps virtual orders and the real volume that is left. */
  function DropEmptyReal(q: Queue): Queue {
    if q == [] then []
    else if q[0].Own? || q[0].sz > 0.0 then [q[0]] + DropEmptyReal(q[1..])
    else DropEmptyReal(q[1..])
  }

  /** The share of every real segment that survives a pro-rata removal. */
  function Survival(total: Size, volume: Size): Size
    requires total > 0.0
  {
    Max(0.0, 1.0 - volume / total)
  }

  /** Takes `volume` of cancelled real size out of the queue where the bound says it stood. */
  function RemoveReal(bound: Bound, q: Queue, volume: Size): Queue {
    match bound
    case ProRata =>
      var total := RealSize(q);
      if total <= 0.0 then q else DropEmptyReal(Scale(q, Survival(total, volume)))
    case Pessimistic => DropEmptyReal(RemoveBack(q, volume))
    case _ => DropEmptyReal(RemoveFront(q, volume))
  }

  /** Brings the tracked real size to the visible size: growth joins the back, shrinkage leaves per bound. */
  function Reconcile(bound: Bound, q: Queue, visible: Size): Queue {
    var tracked := RealSize(q);
    if visible > tracked then q + [Real(None, visible - tracked)]
    else if visible < tracked then RemoveReal(bound, q, tracked - visible)
    else q
  }
}
