/**
 * The order in which the batching writer keeps what arrives: it stands, at every step of every interleaving, exactly
 * as long as batches leave for the store oldest first and come back to the buffer youngest first.
 */
module ArrivalOrder {
  import opened Batching

  // ---------- subsequences ----------

  /** `a` is `b` with some points left out. */
  predicate Subsequence<T(==)>(a: seq<T>, b: seq<T>) {
    a == [] || (b != [] && (if a[0] == b[0] then Subsequence(a[1..], b[1..]) else Subsequence(a, b[1..])))
  }

  lemma {:induction false} SubAppend<T>(a: seq<T>, b: seq<T>, c: seq<T>)
    requires Subsequence(a, b)
    ensures Subsequence(a + c, b + c)
  {
    if a == [] {
      assert a + c == c;
      SubSuffix(b, c);
    } else {
      assert (b + c)[1..] == b[1..] + c && (a + c)[1..] == a[1..] + c;
      if a[0] == b[0] { SubAppend(a[1..], b[1..], c); } else { SubAppend(a, b[1..], c); }
    }
  }

  lemma {:induction false} SubSuffix<T>(b: seq<T>, c: seq<T>)
    ensures Subsequence(c, b + c)
  {
    if b == [] {
      assert b + c == c;
      SubSelf(c);
    } else {
      assert (b + c)[1..] == b[1..] + c;
      SubSuffix(b[1..], c);
      if c != [] && c[0] == b[0] { SubDrop(c, b[1..] + c); }
    }
  }

  lemma {:induction false} SubSelf<T>(c: seq<T>)
    ensures Subsequence(c, c)
  {
    if c != [] { SubSelf(c[1..]); }
  }

  /** Leaving out the first point keeps a subsequence. */
  lemma {:induction false} SubDrop<T>(a: seq<T>, b: seq<T>)
    requires Subsequence(a, b) && a != []
    ensures Subsequence(a[1..], b)
  {
    if a[0] == b[0] {
      SubWiden(a[1..], b);
    } else {
      SubDrop(a, b[1..]);
      SubWiden(a[1..], b);
    }
  }

  lemma {:induction false} SubWiden<T>(a: seq<T>, b: seq<T>)
    requires b != [] && Subsequence(a, b[1..])
    ensures Subsequence(a, b)
  {
    if a != [] && a[0] == b[0] { SubDrop(a, b[1..]); }
  }

  lemma {:induction false} SubRemove<T>(a: seq<T>, m: seq<T>, c: seq<T>, b: seq<T>)
    requires Subsequence(a + m + c, b)
    ensures Subsequence(a + c, b)
    decreases |b|, |m|
  {
    if a == [] {
      if m == [] {
        assert a + m + c == a + c;
      } else {
        SubDrop(a + m + c, b);
        assert (a + m + c)[1..] == a + m[1..] + c;
        SubRemove(a, m[1..], c, b);
      }
    } else {
      assert (a + m + c)[0] == a[0] && (a + m + c)[1..] == a[1..] + m + c && (a + c)[1..] == a[1..] + c;
      if a[0] == b[0] { SubRemove(a[1..], m, c, b[1..]); } else { SubRemove(a, m, c, b[1..]); }
    }
  }

  lemma {:induction false} SubNotLonger<T>(a: seq<T>, b: seq<T>)
    requires Subsequence(a, b)
    ensures |a| <= |b|
  {
    if a != [] { SubNotLonger(if a[0] == b[0] then a[1..] else a, b[1..]); }
  }

  lemma {:induction false} SubSameSize<T>(a: seq<T>, b: seq<T>)
    requires Subsequence(a, b) && |a| == |b|
    ensures a == b
  {
    if a != [] {
      if a[0] == b[0] {
        SubSameSize(a[1..], b[1..]);
      } else {
        SubNotLonger(a, b[1..]);
      }
    }
  }

  /** No point stands twice. */
  ghost predicate Distinct<T>(s: seq<T>) {
    forall i, j :: 0 <= i < j < |s| ==> s[i] != s[j]
  }

  /** `x` stands somewhere before `y`. */
  ghost predicate Precedes<T>(s: seq<T>, x: T, y: T) {
    exists i, j :: 0 <= i < j < |s| && s[i] == x && s[j] == y
  }

  lemma PrecedesAt<T>(s: seq<T>, i: nat, j: nat)
    requires i < j < |s|
    ensures Precedes(s, s[i], s[j])
  {}

  /** What stands in order in a subsequence stands in order in the whole. */
  lemma {:induction false} SubPrecedes<T>(a: seq<T>, b: seq<T>, x: T, y: T)
    requires Subsequence(a, b) && Precedes(a, x, y)
    ensures Precedes(b, x, y)
  {
    if a[0] == b[0] {
      var i, j :| 0 <= i < j < |a| && a[i] == x && a[j] == y;
      if i == 0 {
        assert a[1..][j - 1] == y;
        SubHolds(a[1..], b[1..], y);
        var k :| 0 <= k < |b[1..]| && b[1..][k] == y;
        assert b[k + 1] == y;
        PrecedesAt(b, 0, k + 1);
      } else {
        assert a[1..][i - 1] == x && a[1..][j - 1] == y;
        PrecedesAt(a[1..], i - 1, j - 1);
        SubPrecedes(a[1..], b[1..], x, y);
        PrecedesLater(b, x, y);
      }
    } else {
      SubPrecedes(a, b[1..], x, y);
      PrecedesLater(b, x, y);
    }
  }

  lemma PrecedesLater<T>(b: seq<T>, x: T, y: T)
    requires b != [] && Precedes(b[1..], x, y)
    ensures Precedes(b, x, y)
  {
    var i, j :| 0 <= i < j < |b[1..]| && b[1..][i] == x && b[1..][j] == y;
    assert b[i + 1] == x && b[j + 1] == y;
    PrecedesAt(b, i + 1, j + 1);
  }

  lemma {:induction false} SubHolds<T>(a: seq<T>, b: seq<T>, x: T)
    requires Subsequence(a, b) && x in a
    ensures x in b
  {
    if a[0] == b[0] {
      if x != a[0] { SubHolds(a[1..], b[1..], x); }
    } else {
      SubHolds(a, b[1..], x);
    }
  }

  /** Distinct points cannot stand both ways round. */
  lemma NotBothWays<T>(a: seq<T>, a': seq<T>, b: seq<T>, x: T, y: T)
    requires Distinct(b) && Subsequence(a, b) && Precedes(a, x, y) && Precedes(a', y, x)
    ensures !Subsequence(a', b)
  {
    if Subsequence(a', b) {
      SubPrecedes(a, b, x, y);
      SubPrecedes(a', b, y, x);
      OneWay(b, x, y);
    }
  }

  lemma OneWay<T>(b: seq<T>, x: T, y: T)
    requires Distinct(b) && Precedes(b, x, y)
    ensures !Precedes(b, y, x)
  {}

  // ---------- one step ----------

  /** What reached the store, then what is on its way, then what waits. */
  function InOrder<T>(s: Store<T>): seq<T> {
    s.stored + Flat(s.inFlight) + s.buffer
  }

  /** Stored, in-flight and buffered points stand in the order they arrived. */
  ghost predicate Ordered<T>(s: Store<T>) {
    Subsequence(InOrder(s), s.accepted)
  }

  /** The buffer is within its cap and every batch in flight has points in it. */
  ghost predicate Flying<T>(s: Store<T>) {
    |s.buffer| <= s.max && forall k :: 0 <= k < |s.inFlight| ==> s.inFlight[k] != []
  }

  /** What flush `i` comes to: its batch is stored, at least in part, or goes back. */
  predicate Delivers<T>(s: Store<T>, step: Step<T>) {
    step.FlushAnswered? && step.i < |s.inFlight| && |Taken(s.inFlight[step.i], step.took)| > 0
  }

  predicate PutsBack<T>(s: Store<T>, step: Step<T>) {
    (step.FlushFailed? || step.FlushAnswered?) && step.i < |s.inFlight| && !Delivers(s, step)
  }

  /**
   * Batches are stored oldest first and go back youngest first, unless the buffer is full and all of one is dropped.
   */
  predicate InTurn<T>(s: Store<T>, step: Step<T>) {
    && (Delivers(s, step) ==> step.i == 0)
    && (PutsBack(s, step) ==> step.i == |s.inFlight| - 1 || |s.buffer| >= s.max)
  }

  lemma CapInOrder<T>(s: Store<T>, head: seq<T>, grown: seq<T>)
    requires Subsequence(head + grown, s.accepted)
    ensures Subsequence(head + Capped(s, grown).buffer, s.accepted)
  {
    var over := Overflow(grown, s.max);
    assert head + grown == head + grown[..over] + grown[over..];
    SubRemove(head, grown[..over], grown[over..], s.accepted);
  }

  lemma CapRest<T>(s: Store<T>, grown: seq<T>)
    ensures var s' := Capped(s, grown);
      s' == s.(buffer := s'.buffer, dropped := s'.dropped, droppedCount := s'.droppedCount)
  {}

  lemma Reassociate<T>(a: seq<T>, b: seq<T>, c: seq<T>, d: seq<T>)
    ensures a + (b + c) + d == (a + b) + c + d
    ensures a + (b + c) + d == a + b + (c + d)
    ensures a + (c + d) == a + c + d
  {}

  lemma TakenFirst<T>(batch: seq<T>, took: seq<bool>)
    requires batch != [] && took != []
    ensures batch == [batch[0]] + batch[1..]
    ensures Taken(batch, took) == (if took[0] then [batch[0]] else []) + Taken(batch[1..], took[1..])
  {}

  /** Leaving points out of the middle keeps a subsequence. */
  lemma {:induction false} TakenInOrder<T>(head: seq<T>, batch: seq<T>, took: seq<bool>, tail: seq<T>, b: seq<T>)
    requires Subsequence(head + batch + tail, b)
    ensures Subsequence(head + Taken(batch, took) + tail, b)
    decreases |batch|
  {
    hide Subsequence;
    if batch == [] || took == [] {
      SubRemove(head, batch, tail, b);
      assert head + [] == head;
    } else {
      hide Taken;
      var one, rest, more := [batch[0]], batch[1..], Taken(batch[1..], took[1..]);
      TakenFirst(batch, took);
      Reassociate(head, one, rest, tail);
      if took[0] {
        TakenInOrder(head + one, rest, took[1..], tail, b);
        Reassociate(head, one, more, tail);
      } else {
        SubRemove(head, one, rest + tail, b);
        TakenInOrder(head, rest, took[1..], tail, b);
        assert [] + more == more;
      }
    }
  }

  lemma WriteOrdered<T>(s: Store<T>, points: seq<T>)
    requires Ordered(s)
    ensures Ordered(Next(s, Write(points)))
  {
    hide Flat, Capped, Subsequence;
    var head := s.stored + Flat(s.inFlight);
    SubAppend(InOrder(s), s.accepted, points);
    assert InOrder(s) + points == head + (s.buffer + points);
    var s1 := s.(accepted := s.accepted + points);
    CapInOrder(s1, head, s.buffer + points);
    CapRest(s1, s.buffer + points);
  }

  lemma BeginOrdered<T>(s: Store<T>)
    requires Ordered(s)
    ensures Ordered(Next(s, BeginFlush))
  {
    hide Subsequence, Flat;
    FlatAppend(s.inFlight, [s.buffer]);
    FlatOne(s.buffer);
    assert InOrder(Next(s, BeginFlush)) == InOrder(s);
  }

  /** The line of points, cut around flush `i`. */
  lemma AroundFlight<T>(s: Store<T>, i: nat)
    requires i < |s.inFlight|
    ensures var pre, post := Flat(s.inFlight[..i]), Flat(s.inFlight[i + 1..]);
      && InOrder(s) == (s.stored + pre) + s.inFlight[i] + (post + s.buffer)
      && Flat(Without(s.inFlight, i)) == pre + post
  {
    hide Flat, Without;
    FlatSplit(s.inFlight, i);
  }

  lemma DeliveredLine<T>(s: Store<T>, i: nat, took: seq<bool>)
    requires i < |s.inFlight|
    ensures var pre, post := Flat(s.inFlight[..i]), Flat(s.inFlight[i + 1..]);
      InOrder(Delivered(s, i, took)) == s.stored + Taken(s.inFlight[i], took) + (pre + (post + s.buffer))
  {
    hide Flat, Without, Taken, Left;
    FlatSplit(s.inFlight, i);
  }

  lemma DeliverFirst<T>(s: Store<T>, took: seq<bool>)
    requires Ordered(s) && s.inFlight != []
    ensures Ordered(Delivered(s, 0, took))
  {
    hide Without, Taken, Left, Subsequence;
    AroundFlight(s, 0);
    DeliveredLine(s, 0, took);
    assert s.inFlight[..0] == [];
    var tail := Flat(s.inFlight[1..]) + s.buffer;
    assert s.stored + [] == s.stored && [] + tail == tail;
    TakenInOrder(s.stored, s.inFlight[0], took, tail, s.accepted);
  }

  /** A younger batch stored first: its points now stand before the older ones'. */
  lemma DeliverLater<T>(s: Store<T>, i: nat, took: seq<bool>)
    requires Ordered(s) && Flying(s) && Distinct(s.accepted)
    requires 0 < i < |s.inFlight| && |Taken(s.inFlight[i], took)| > 0
    ensures !Ordered(Delivered(s, i, took))
  {
    hide Flat, Without, Taken, Left, Subsequence, Distinct, Precedes;
    var batch, taken := s.inFlight[i], Taken(s.inFlight[i], took);
    var pre := Flat(s.inFlight[..i]);
    var post := Flat(s.inFlight[i + 1..]);
    FirstOfFlight(s.inFlight[..i]);
    TakenHeld(batch, took);
    AroundFlight(s, i);
    DeliveredLine(s, i, took);
    var x, y := pre[0], taken[0];
    StandsBefore(s.stored + pre, batch + (post + s.buffer), |s.stored|, y);
    assert (s.stored + pre)[|s.stored|] == x;
    assert s.stored + pre + (batch + (post + s.buffer)) == (s.stored + pre) + batch + (post + s.buffer);
    StandsBefore(s.stored + taken, pre + (post + s.buffer), |s.stored|, x);
    assert (s.stored + taken)[|s.stored|] == y;
    NotBothWays(InOrder(s), InOrder(Delivered(s, i, took)), s.accepted, x, y);
  }

  lemma StandsBefore<T>(a: seq<T>, b: seq<T>, i: nat, y: T)
    requires i < |a| && y in b
    ensures Precedes(a + b, a[i], y)
  {
    var k :| 0 <= k < |b| && b[k] == y;
    assert (a + b)[i] == a[i] && (a + b)[|a| + k] == y;
    PrecedesAt(a + b, i, |a| + k);
  }

  lemma FirstOfFlight<T>(batches: seq<seq<T>>)
    requires batches != [] && batches[0] != []
    ensures |Flat(batches)| > 0
  {}

  lemma {:induction false} TakenHeld<T>(batch: seq<T>, took: seq<bool>)
    ensures forall x :: x in Taken(batch, took) ==> x in batch
  {
    if batch != [] && took != [] { TakenHeld(batch[1..], took[1..]); }
  }

  lemma RequeuedLine<T>(s: Store<T>, i: nat)
    requires i < |s.inFlight|
    ensures var pre, post := Flat(s.inFlight[..i]), Flat(s.inFlight[i + 1..]);
      var grown := s.inFlight[i] + s.buffer;
      && InOrder(Requeued(s, i)) == (s.stored + pre) + (post + grown[Overflow(grown, s.max)..])
      && Requeued(s, i).accepted == s.accepted
  {
    hide Flat, Without, Overflow;
    FlatSplit(s.inFlight, i);
  }

  /** The youngest batch goes back to where it came from. */
  lemma RequeueYoungest<T>(s: Store<T>, i: nat)
    requires Ordered(s) && i == |s.inFlight| - 1
    ensures Ordered(Requeued(s, i))
  {
    hide Subsequence, Flat, Without;
    AroundFlight(s, i);
    RequeuedLine(s, i);
    assert s.inFlight[i + 1..] == [];
    FlatNone<T>();
    var head, grown := s.stored + Flat(s.inFlight[..i]), s.inFlight[i] + s.buffer;
    assert [] + s.buffer == s.buffer;
    assert InOrder(s) == head + grown;
    CapInOrder(s, head, grown);
    assert [] + grown[Overflow(grown, s.max)..] == grown[Overflow(grown, s.max)..];
  }

  lemma FlatNone<T>()
    ensures Flat<T>([]) == []
  {}

  /** With the buffer full the whole batch is dropped. */
  lemma RequeueDropped<T>(s: Store<T>, i: nat)
    requires Ordered(s) && i < |s.inFlight| && |s.buffer| == s.max
    ensures Ordered(Requeued(s, i))
  {
    hide Subsequence, Flat, Without;
    AroundFlight(s, i);
    RequeuedLine(s, i);
    var pre, post := Flat(s.inFlight[..i]), Flat(s.inFlight[i + 1..]);
    var grown := s.inFlight[i] + s.buffer;
    assert grown[Overflow(grown, s.max)..] == s.buffer;
    SubRemove(s.stored + pre, s.inFlight[i], post + s.buffer, s.accepted);
  }

  /** An older batch put back: its last point now stands after a younger batch's. */
  lemma RequeueOlder<T>(s: Store<T>, i: nat)
    requires Ordered(s) && Flying(s) && Distinct(s.accepted)
    requires i < |s.inFlight| - 1 && |s.buffer| < s.max
    ensures !Ordered(Requeued(s, i))
  {
    hide Flat, Without, Subsequence, Distinct, Precedes;
    AroundFlight(s, i);
    RequeuedLine(s, i);
    FirstOfFlight(s.inFlight[i + 1..]);
    var pre, post, batch := Flat(s.inFlight[..i]), Flat(s.inFlight[i + 1..]), s.inFlight[i];
    var grown := batch + s.buffer;
    var left := grown[Overflow(grown, s.max)..];
    var x, y := batch[|batch| - 1], post[0];
    KeepsLast(batch, s.buffer, s.max);
    StandsBefore((s.stored + pre) + batch, post + s.buffer, |s.stored + pre| + |batch| - 1, y);
    assert ((s.stored + pre) + batch)[|s.stored + pre| + |batch| - 1] == x;
    StandsBefore((s.stored + pre) + post, left, |s.stored + pre|, x);
    assert ((s.stored + pre) + post)[|s.stored + pre|] == y;
    assert (s.stored + pre) + post + left == (s.stored + pre) + (post + left);
    NotBothWays(InOrder(s), InOrder(Requeued(s, i)), s.accepted, x, y);
  }

  lemma KeepsLast<T>(batch: seq<T>, buffer: seq<T>, max: nat)
    requires batch != [] && |buffer| < max
    ensures var grown := batch + buffer; batch[|batch| - 1] in grown[Overflow(grown, max)..]
  {
    var grown := batch + buffer;
    var over := Overflow(grown, max);
    assert grown[over..][|batch| - 1 - over] == batch[|batch| - 1];
  }

  lemma StepIs<T>(s: Store<T>, step: Step<T>)
    requires Flying(s)
    ensures Delivers(s, step) ==> Next(s, step) == Delivered(s, step.i, step.took)
    ensures PutsBack(s, step) ==> Next(s, step) == Requeued(s, step.i)
    ensures !Delivers(s, step) && !PutsBack(s, step) ==> step.Write? || step.BeginFlush? || Next(s, step) == s
  {
    hide Taken, Delivered, Requeued;
  }

  /** A step in turn keeps the order, whatever the points. */
  lemma InTurnKeepsOrder<T>(s: Store<T>, step: Step<T>)
    requires Ordered(s) && Flying(s) && InTurn(s, step)
    ensures Ordered(Next(s, step))
  {
    hide Next, Ordered, Delivers, PutsBack;
    StepIs(s, step);
    if Delivers(s, step) {
      AnswersFlight(s, step);
      DeliverFirst(s, step.took);
    } else if PutsBack(s, step) {
      AnswersFlight(s, step);
      if step.i == |s.inFlight| - 1 { RequeueYoungest(s, step.i); } else { RequeueDropped(s, step.i); }
    } else if step.Write? {
      WriteOrdered(s, step.points);
    } else if step.BeginFlush? {
      BeginOrdered(s);
    }
  }

  lemma AnswersFlight<T>(s: Store<T>, step: Step<T>)
    ensures Delivers(s, step) ==>
      step.FlushAnswered? && step.i < |s.inFlight| && |Taken(s.inFlight[step.i], step.took)| > 0
    ensures PutsBack(s, step) ==> (step.FlushAnswered? || step.FlushFailed?) && step.i < |s.inFlight|
  {}

  /** Of distinct points, a step out of turn puts two the wrong way round. */
  lemma OutOfTurnBreaksOrder<T>(s: Store<T>, step: Step<T>)
    requires Ordered(s) && Flying(s) && Distinct(s.accepted) && !InTurn(s, step)
    ensures !Ordered(Next(s, step))
  {
    hide Next, Ordered, Distinct, Delivers, PutsBack;
    StepIs(s, step);
    AnswersFlight(s, step);
    if Delivers(s, step) && step.i != 0 {
      DeliverLater(s, step.i, step.took);
    } else {
      RequeueOlder(s, step.i);
    }
  }

  /** The order of distinct points stands after a step if and only if the step is in turn. */
  lemma StepInTurnIff<T>(s: Store<T>, step: Step<T>)
    requires Ordered(s) && Flying(s) && Distinct(s.accepted)
    ensures Ordered(Next(s, step)) <==> InTurn(s, step)
  {
    hide Next, Ordered, Distinct, InTurn, Flying;
    if InTurn(s, step) {
      InTurnKeepsOrder(s, step);
    } else {
      OutOfTurnBreaksOrder(s, step);
    }
  }

  // ---------- whole runs ----------

  lemma StepKeepsFlying<T>(s: Store<T>, step: Step<T>)
    requires Flying(s)
    ensures Flying(Next(s, step)) && s.accepted <= Next(s, step).accepted
  {
    hide Taken, Left;
  }

  /** Every step of a run is in turn. */
  ghost predicate AllInTurn<T>(s: Store<T>, steps: seq<Step<T>>)
    decreases steps
  {
    steps == [] || (InTurn(s, steps[0]) && AllInTurn(Next(s, steps[0]), steps[1..]))
  }

  lemma {:induction false} InTurnRun<T>(s: Store<T>, steps: seq<Step<T>>)
    requires Ordered(s) && Flying(s) && AllInTurn(s, steps)
    ensures Ordered(Run(s, steps))
    decreases steps
  {
    hide Ordered, Flying, InTurn, Next;
    if steps != [] {
      InTurnKeepsOrder(s, steps[0]);
      StepKeepsFlying(s, steps[0]);
      InTurnRun(Next(s, steps[0]), steps[1..]);
    }
  }

  lemma {:induction false} RunAccepts<T>(s: Store<T>, steps: seq<Step<T>>)
    requires Flying(s)
    ensures s.accepted <= Run(s, steps).accepted
    decreases steps
  {
    hide Flying, Next;
    if steps != [] {
      StepKeepsFlying(s, steps[0]);
      RunAccepts(Next(s, steps[0]), steps[1..]);
    }
  }

  lemma DistinctPrefix<T>(a: seq<T>, b: seq<T>)
    requires a <= b && Distinct(b)
    ensures Distinct(a)
  {}

  lemma RunFirst<T>(s: Store<T>, steps: seq<Step<T>>, n: nat)
    requires 0 < n <= |steps|
    ensures Run(s, steps[..n]) == Run(Next(s, steps[0]), steps[1..][..n - 1])
  {
    hide Next;
    assert steps[..n][1..] == steps[1..][..n - 1];
  }

  lemma {:induction false} OrderIffInTurnFrom<T>(s: Store<T>, steps: seq<Step<T>>)
    requires Ordered(s) && Flying(s) && Distinct(Run(s, steps).accepted)
    ensures AllInTurn(s, steps) <==> forall n :: 0 <= n <= |steps| ==> Ordered(Run(s, steps[..n]))
    decreases steps
  {
    hide Ordered, Flying, InTurn, Next, Distinct;
    if steps == [] {
      assert steps[..0] == [];
    } else {
      var s', rest := Next(s, steps[0]), steps[1..];
      RunAccepts(s, steps);
      DistinctPrefix(s.accepted, Run(s, steps).accepted);
      StepInTurnIff(s, steps[0]);
      StepKeepsFlying(s, steps[0]);
      assert steps[..0] == [] && rest[..0] == [];
      forall n | 0 < n <= |steps| ensures Run(s, steps[..n]) == Run(s', rest[..n - 1]) { RunFirst(s, steps, n); }
      assert Run(s, steps[..1]) == s';
      if InTurn(s, steps[0]) {
        OrderIffInTurnFrom(s', rest);
        if forall n :: 0 <= n <= |steps| ==> Ordered(Run(s, steps[..n])) {
          forall n | 0 <= n <= |rest| ensures Ordered(Run(s', rest[..n])) {
            assert Run(s, steps[..n + 1]) == Run(s', rest[..n]);
          }
        }
      }
    }
  }

  lemma FreshOrdered<T>(max: nat)
    ensures Ordered(Fresh<T>(max)) && Flying(Fresh<T>(max))
  {}

  /**
   * From an empty store, under every interleaving, distinct points stand in the order they arrived at every step if
   * and only if every step is in turn.
   */
  lemma OrderIffInTurn<T>(max: nat, steps: seq<Step<T>>)
    requires Distinct(Run(Fresh<T>(max), steps).accepted)
    ensures AllInTurn(Fresh<T>(max), steps) <==>
            forall n :: 0 <= n <= |steps| ==> Ordered(Run(Fresh<T>(max), steps[..n]))
  {
    hide Run, Ordered, Distinct, AllInTurn;
    FreshOrdered<T>(max);
    OrderIffInTurnFrom(Fresh<T>(max), steps);
  }

  // ---------- runs that are in turn ----------

  /** A flush begins only when no other is under way. */
  predicate OneAtATime<T>(s: Store<T>, steps: seq<Step<T>>)
    decreases steps
  {
    steps == [] || ((steps[0].BeginFlush? ==> s.inFlight == []) && OneAtATime(Next(s, steps[0]), steps[1..]))
  }

  lemma StaysAtOne<T>(s: Store<T>, step: Step<T>)
    requires |s.inFlight| <= 1 && (step.BeginFlush? ==> s.inFlight == [])
    ensures |Next(s, step).inFlight| <= 1 && InTurn(s, step)
  {
    hide Taken, Left;
  }

  lemma {:induction false} OneAtATimeIsInTurn<T>(s: Store<T>, steps: seq<Step<T>>)
    requires |s.inFlight| <= 1 && OneAtATime(s, steps)
    ensures AllInTurn(s, steps)
    decreases steps
  {
    hide InTurn, Next;
    if steps != [] {
      StaysAtOne(s, steps[0]);
      OneAtATimeIsInTurn(Next(s, steps[0]), steps[1..]);
    }
  }

  /** Flushes may overlap as long as every answer is a success for the oldest of them. */
  predicate AnsweredOldestFirst<T>(s: Store<T>, steps: seq<Step<T>>)
    decreases steps
  {
    steps == [] || (!PutsBack(s, steps[0]) && (Delivers(s, steps[0]) ==> steps[0].i == 0) &&
                    AnsweredOldestFirst(Next(s, steps[0]), steps[1..]))
  }

  lemma {:induction false} OldestFirstIsInTurn<T>(s: Store<T>, steps: seq<Step<T>>)
    requires AnsweredOldestFirst(s, steps)
    ensures AllInTurn(s, steps)
    decreases steps
  {
    if steps != [] { OldestFirstIsInTurn(Next(s, steps[0]), steps[1..]); }
  }

  /**
   * With one flush at a time, or overlapping ones answered oldest first, any points stand in the order they arrived.
   */
  lemma ArrivalOrderKept<T>(max: nat, steps: seq<Step<T>>)
    requires OneAtATime(Fresh<T>(max), steps) || AnsweredOldestFirst(Fresh<T>(max), steps)
    ensures Ordered(Run(Fresh<T>(max), steps))
  {
    hide Run, OneAtATime, AnsweredOldestFirst, AllInTurn, Ordered;
    FreshOrdered<T>(max);
    if OneAtATime(Fresh<T>(max), steps) {
      OneAtATimeIsInTurn(Fresh<T>(max), steps);
    } else {
      OldestFirstIsInTurn(Fresh<T>(max), steps);
    }
    InTurnRun(Fresh<T>(max), steps);
  }

  // ---------- overlapping flushes ----------

  /** A writer fills an empty buffer and a flush takes all of it. */
  lemma WriteThenFlush<T>(s: Store<T>, batch: seq<T>)
    requires s.buffer == [] && 0 < |batch| <= s.max
    ensures Next(Next(s, Write(batch)), BeginFlush) ==
            s.(inFlight := s.inFlight + [batch], accepted := s.accepted + batch)
  {
    assert [] + batch == batch && batch[0..] == batch && batch[..0] == [] && s.dropped + [] == s.dropped;
  }

  function Whole(n: nat): (took: seq<bool>)
    ensures |took| == n
  {
    if n == 0 then [] else [true] + Whole(n - 1)
  }

  lemma {:induction false} WholeTaken<T>(batch: seq<T>)
    ensures Taken(batch, Whole(|batch|)) == batch && Left(batch, Whole(|batch|)) == []
  {
    if batch != [] {
      assert Whole(|batch|)[1..] == Whole(|batch| - 1);
      WholeTaken(batch[1..]);
    }
  }

  /** Answers that come back in the other order store the younger batch first. */
  lemma YoungerFirst<T>(s: Store<T>, a: seq<T>, b: seq<T>)
    requires s.inFlight == [a, b] && a != [] && b != []
    ensures Next(Next(s, FlushAnswered(1, Whole(|b|))), FlushAnswered(0, Whole(|a|))) ==
            s.(inFlight := [], stored := s.stored + b + a)
  {
    hide Taken, Left, Whole;
    WholeTaken(a);
    WholeTaken(b);
    assert Without([a, b], 1) == [a] && Without([a], 0) == [];
    assert s.lost + [] == s.lost;
  }

  /** Two flushes under way at once, the younger answered first. */
  function Overlap<T>(a: seq<T>, b: seq<T>): seq<Step<T>> {
    [Write(a), BeginFlush, Write(b), BeginFlush, FlushAnswered(1, Whole(|b|)), FlushAnswered(0, Whole(|a|))]
  }

  /** Two overlapping flushes can store the younger of any two batches first. */
  lemma OverlapSwaps<T>(s: Store<T>, a: seq<T>, b: seq<T>)
    requires s.buffer == [] && s.inFlight == [] && 0 < |a| <= s.max && 0 < |b| <= s.max
    ensures Run(s, Overlap(a, b)) == s.(stored := s.stored + b + a, accepted := s.accepted + a + b)
  {
    hide Next, Run, Whole;
    var s2 := s.(inFlight := [] + [a], accepted := s.accepted + a);
    var s4 := s2.(inFlight := [] + [a] + [b], accepted := s2.accepted + b);
    WriteThenFlush(s, a);
    WriteThenFlush(s2, b);
    assert [] + [a] + [b] == [a, b];
    YoungerFirst(s4, a, b);
    SixSteps(s, Write(a), BeginFlush, Write(b), BeginFlush, FlushAnswered(1, Whole(|b|)), FlushAnswered(0, Whole(|a|)));
  }

  lemma TwoSteps<T>(s: Store<T>, p1: Step<T>, p2: Step<T>, rest: seq<Step<T>>)
    ensures Run(s, [p1, p2] + rest) == Run(Next(Next(s, p1), p2), rest)
  {
    hide Next;
    assert ([p1, p2] + rest)[1..] == [p2] + rest && ([p2] + rest)[1..] == rest;
  }

  lemma SixSteps<T>(s: Store<T>, p1: Step<T>, p2: Step<T>, p3: Step<T>, p4: Step<T>, p5: Step<T>, p6: Step<T>)
    ensures Run(s, [p1, p2, p3, p4, p5, p6]) == Next(Next(Next(Next(Next(Next(s, p1), p2), p3), p4), p5), p6)
  {
    hide Next;
    var s2, s4 := Next(Next(s, p1), p2), Next(Next(Next(Next(s, p1), p2), p3), p4);
    TwoSteps(s, p1, p2, [p3, p4, p5, p6]);
    TwoSteps(s2, p3, p4, [p5, p6]);
    TwoSteps(s4, p5, p6, []);
    assert [p1, p2] + [p3, p4, p5, p6] == [p1, p2, p3, p4, p5, p6] && [p3, p4] + [p5, p6] == [p3, p4, p5, p6];
    assert [p5, p6] + [] == [p5, p6];
  }

  lemma {:induction false} InTurnAt<T>(s: Store<T>, steps: seq<Step<T>>, n: nat)
    requires n < |steps| && AllInTurn(s, steps)
    ensures InTurn(Run(s, steps[..n]), steps[n])
    decreases n
  {
    hide Next, InTurn;
    if n > 0 {
      InTurnAt(Next(s, steps[0]), steps[1..], n - 1);
      RunFirst(s, steps, n);
    }
  }

  lemma BothInFlight<T>(s: Store<T>, a: seq<T>, b: seq<T>)
    requires s.buffer == [] && s.inFlight == [] && 0 < |a| <= s.max && 0 < |b| <= s.max
    ensures Run(s, Overlap(a, b)[..4]).inFlight == [a, b]
  {
    hide Next, Run, Whole;
    var s2 := s.(inFlight := [] + [a], accepted := s.accepted + a);
    WriteThenFlush(s, a);
    WriteThenFlush(s2, b);
    TwoSteps(s, Write(a), BeginFlush, [Write(b), BeginFlush]);
    TwoSteps(s2, Write(b), BeginFlush, []);
    assert Overlap(a, b)[..4] == [Write(a), BeginFlush] + [Write(b), BeginFlush];
    assert [Write(b), BeginFlush] + [] == [Write(b), BeginFlush];
    RunNone(Next(Next(s2, Write(b)), BeginFlush));
  }

  lemma RunNone<T>(s: Store<T>)
    ensures Run(s, []) == s
  {}

  /** Delivering the younger of two batches is out of turn. */
  lemma OverlapIsOutOfTurn<T>(max: nat, a: seq<T>, b: seq<T>)
    requires 0 < |a| <= max && 0 < |b| <= max
    ensures !AllInTurn(Fresh<T>(max), Overlap(a, b))
  {
    hide Run, AllInTurn, Taken, Whole;
    BothInFlight(Fresh<T>(max), a, b);
    WholeTaken(b);
    if AllInTurn(Fresh<T>(max), Overlap(a, b)) {
      InTurnAt(Fresh<T>(max), Overlap(a, b), 4);
    }
  }

  /**
   * Two overlapping flushes answered younger first are out of turn, and leave any two batches in order only if they
   * read the same either way round.
   */
  lemma OverlapBreaksOrder<T>(max: nat, a: seq<T>, b: seq<T>)
    requires 0 < |a| <= max && 0 < |b| <= max
    ensures !AllInTurn(Fresh<T>(max), Overlap(a, b))
    ensures Ordered(Run(Fresh<T>(max), Overlap(a, b))) <==> a + b == b + a
  {
    hide Run, Subsequence, Overlap, AllInTurn;
    OverlapIsOutOfTurn(max, a, b);
    OverlapSwaps(Fresh<T>(max), a, b);
    var s := Run(Fresh<T>(max), Overlap(a, b));
    assert InOrder(s) == b + a && s.accepted == a + b;
    if Subsequence(b + a, a + b) {
      SubSameSize(b + a, a + b);
    }
    SubSelf(a + b);
  }
}
