/** The stateless split of one print at a price, and its agreement with the FIFO walk. */
module Allocation {
  import opened Schemas
  import opened Fifo

  /** What each own order takes, in placement order, from what the queue ahead left over. */
  function Shares(own: seq<(int, Size)>, left: Size): seq<(int, Size)> {
    if own == [] || left <= 0.0 then [] else
      var take := Min(left, own[0].1);
      if take > 0.0 then [(own[0].0, take)] + Shares(own[1..], left - take) else Shares(own[1..], left - take)
  }

  function SumOf(shares: seq<(int, Size)>): Size {
    if shares == [] then 0.0 else shares[0].1 + SumOf(shares[1..])
  }

  method AllocateAtLevel(tradeSz: real, queueAhead: real, own: seq<(int, Size)>)
    returns (aheadConsumed: real, fills: seq<(int, Size)>)
    ensures tradeSz <= 0.0 ==> aheadConsumed == 0.0 && fills == []
    ensures tradeSz > 0.0 ==>
      aheadConsumed == Min(tradeSz, Max(queueAhead, 0.0)) && fills == Shares(own, tradeSz - aheadConsumed)
    ensures tradeSz > 0.0 ==> aheadConsumed + SumOf(fills) == Min(tradeSz, Max(queueAhead, 0.0) + SumOf(own))
  {
    hide Shares, SumOf;
    if tradeSz <= 0.0 {
      return 0.0, [];
    }
    aheadConsumed := Min(tradeSz, Max(queueAhead, 0.0));
    var remaining: Size := tradeSz - aheadConsumed;
    SharesSum(own, remaining);
    ghost var whole := Shares(own, remaining);
    fills := [];
    var i := 0;
    StillToShareAll(own, remaining);
    hide *;
    while i < |own| && remaining > 0.0
      invariant 0 <= i <= |own| && StillToShare(whole, fills, own, i, remaining)
    {
      var take := Least(remaining, own[i].1);
      ShareStep(whole, fills, own, i, remaining);
      if take > 0.0 {
        fills := fills + [(own[i].0, take)];
        remaining := remaining - take;
      }
      i := i + 1;
    }
    AllShared(whole, fills, own, i, remaining);
  }

  /** `fills` are the first of the shares, and those from order `i` on are still to come. */
  ghost predicate StillToShare(
      whole: seq<(int, Size)>, fills: seq<(int, Size)>, own: seq<(int, Size)>, i: nat, left: Size)
  {
    i <= |own| && whole == fills + Shares(own[i..], left)
  }

  function Least(a: Size, b: Size): (r: Size)
    ensures r == Min(a, b) && r <= a && r <= b
  {
    Min(a, b)
  }

  lemma StillToShareAll(own: seq<(int, Size)>, left: Size)
    ensures StillToShare(Shares(own, left), [], own, 0, left)
  {
    assert own[0..] == own && [] + Shares(own, left) == Shares(own, left);
  }

  lemma ShareStep(whole: seq<(int, Size)>, fills: seq<(int, Size)>, own: seq<(int, Size)>, i: nat, left: Size)
    requires i < |own| && left > 0.0 && StillToShare(whole, fills, own, i, left)
    ensures var take := Least(left, own[i].1);
      if take > 0.0 then StillToShare(whole, fills + [(own[i].0, take)], own, i + 1, left - take)
      else StillToShare(whole, fills, own, i + 1, left)
  {
    hide Shares;
    NextShare(own, i, left);
  }

  lemma AllShared(whole: seq<(int, Size)>, fills: seq<(int, Size)>, own: seq<(int, Size)>, i: nat, left: Size)
    requires i <= |own| && (i == |own| || left <= 0.0) && StillToShare(whole, fills, own, i, left)
    ensures fills == whole
  {
    NoShares(own, i, left);
    assert fills + [] == fills;
  }

  lemma NextShare(own: seq<(int, Size)>, i: nat, left: Size)
    requires i < |own| && left > 0.0
    ensures var take := Min(left, own[i].1);
      Shares(own[i..], left) ==
        if take > 0.0 then [(own[i].0, take)] + Shares(own[i + 1..], left - take) else Shares(own[i + 1..], left)
  {
    assert own[i..][1..] == own[i + 1..];
  }

  lemma NoShares(own: seq<(int, Size)>, i: nat, left: Size)
    requires i <= |own| && (i == |own| || left <= 0.0)
    ensures Shares(own[i..], left) == []
  {}

  lemma {:induction false} SharesSum(own: seq<(int, Size)>, left: Size)
    ensures SumOf(Shares(own, left)) == Min(left, SumOf(own))
  {
    if own != [] && left > 0.0 {
      SharesSum(own[1..], left - Min(left, own[0].1));
    }
  }

  function OwnSegments(own: seq<(int, Size)>): Queue {
    if own == [] then [] else [Own(own[0].0, own[0].1)] + OwnSegments(own[1..])
  }

  function Pairs(parts: seq<PartFill>): seq<(int, Size)> {
    if parts == [] then [] else [(parts[0].id, parts[0].sz)] + Pairs(parts[1..])
  }

  lemma {:induction false} WalkOverReal(back: Queue, budget: Size, ahead: Size)
    requires !Quoted(back)
    ensures WalkAt(false, back, budget, 0.0, ahead).fills == []
  {
    if back != [] && budget > 0.0 { WalkOverReal(back[1..], budget - Min(budget, back[0].sz), ahead + back[0].sz); }
  }

  lemma {:induction false} WalkOverOwn(own: seq<(int, Size)>, back: Queue, budget: Size, ahead: Size)
    requires !Quoted(back)
    ensures Pairs(WalkAt(false, OwnSegments(own) + back, budget, 0.0, ahead).fills) == Shares(own, budget)
  {
    if own == [] {
      assert OwnSegments(own) + back == back;
      WalkOverReal(back, budget, ahead);
    } else if budget > 0.0 {
      assert (OwnSegments(own) + back)[1..] == OwnSegments(own[1..]) + back;
      WalkOverOwn(own[1..], back, budget - Min(budget, own[0].1), ahead);
    }
  }

  lemma WalkPastReal(h: Segment, t: Queue, budget: Size, ahead: Size)
    requires h.Real? && budget > 0.0
    ensures WalkAt(false, [h] + t, budget, 0.0, ahead).fills ==
            WalkAt(false, t, budget - Min(budget, h.sz), 0.0, ahead + h.sz).fills
  {
    assert ([h] + t)[1..] == t;
  }

  lemma NothingLeft(q: Queue, own: seq<(int, Size)>, ahead: Size)
    ensures Pairs(WalkAt(false, q, 0.0, 0.0, ahead).fills) == Shares(own, 0.0) == []
  {}

  lemma FrontIsReal(front: Queue)
    requires !Quoted(front) && front != []
    ensures front[0].Real? && !Quoted(front[1..]) && RealSize(front) == front[0].sz + RealSize(front[1..])
  {}

  /**
   * With our orders standing next to each other, the FIFO walk and the stateless split agree on every order's share.
   */
  lemma {:induction false} AllocationIsTheWalk(
      front: Queue, own: seq<(int, Size)>, back: Queue, budget: Size, ahead: Size)
    requires !Quoted(front) && !Quoted(back)
    ensures Pairs(WalkAt(false, front + OwnSegments(own) + back, budget, 0.0, ahead).fills) ==
      Shares(own, budget - Min(budget, RealSize(front)))
  {
    hide OwnSegments, Shares, Pairs, WalkAt, Quoted;
    if front == [] {
      assert front + OwnSegments(own) + back == OwnSegments(own) + back;
      WalkOverOwn(own, back, budget, ahead);
    } else if budget > 0.0 {
      FrontIsReal(front);
      var h, t, orders := front[0], front[1..], OwnSegments(own);
      assert front + orders + back == [h] + (t + orders + back);
      WalkPastReal(h, t + orders + back, budget, ahead);
      AllocationIsTheWalk(t, own, back, budget - Min(budget, h.sz), ahead + h.sz);
    } else {
      NothingLeft(front + OwnSegments(own) + back, own, ahead);
    }
  }
}
