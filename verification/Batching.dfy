/**
 * The batching writer: every interleaving of the critical sections of writers and flushes as runs of a step
 * machine, and each section under its lock as a method that takes one of those steps.
 */
module Batching {
  // ---------- one step ----------

  /** What goes of a buffer grown to `grown` when only the newest `max` points may stay. */
  function Overflow<T>(grown: seq<T>, max: nat): nat {
    if |grown| > max then |grown| - max else 0
  }

  /**
   * One section that held the lock, or what the inner store did with flush `i`: it took the points marked in
   * `took`, perhaps none, or raised.
   */
  datatype Step<T> = Write(points: seq<T>) | BeginFlush | FlushAnswered(i: nat, took: seq<bool>) | FlushFailed(i: nat)

  /**
   * `inFlight` holds the batches of the flushes that wait for the inner store, oldest first, and `lost` the points
   * the inner store left out of a batch of which it took some.
   */
  datatype Store<T> = Store(max: nat, buffer: seq<T>, inFlight: seq<seq<T>>, stored: seq<T>,
                            dropped: seq<T>, droppedCount: nat, lost: seq<T>, accepted: seq<T>)

  function Fresh<T>(max: nat): Store<T> {
    Store(max, [], [], [], [], 0, [], [])
  }

  /** The points of a batch the inner store took. */
  function Taken<T>(batch: seq<T>, took: seq<bool>): seq<T> {
    if batch == [] || took == [] then []
    else (if took[0] then [batch[0]] else []) + Taken(batch[1..], took[1..])
  }

  /** The points of a batch it did not take. */
  function Left<T>(batch: seq<T>, took: seq<bool>): seq<T> {
    if batch == [] || took == [] then batch
    else (if took[0] then [] else [batch[0]]) + Left(batch[1..], took[1..])
  }

  /** The buffer after a section that grew it to `grown`. */
  function Capped<T>(s: Store<T>, grown: seq<T>): Store<T> {
    var over := Overflow(grown, s.max);
    s.(buffer := grown[over..], dropped := s.dropped + grown[..over], droppedCount := s.droppedCount + over)
  }

  function Without<T>(batches: seq<seq<T>>, i: nat): seq<seq<T>>
    requires i < |batches|
  {
    batches[..i] + batches[i + 1..]
  }

  /** A batch of which nothing was stored goes back in front of the buffer. */
  function Requeued<T>(s: Store<T>, i: nat): Store<T>
    requires i < |s.inFlight|
  {
    Capped(s.(inFlight := Without(s.inFlight, i)), s.inFlight[i] + s.buffer)
  }

  /** A batch of which something was stored is done with, whatever was left out of it. */
  function Delivered<T>(s: Store<T>, i: nat, took: seq<bool>): Store<T>
    requires i < |s.inFlight|
  {
    s.(inFlight := Without(s.inFlight, i),
       stored := s.stored + Taken(s.inFlight[i], took),
       lost := s.lost + Left(s.inFlight[i], took))
  }

  /** An answer to no flush changes nothing. */
  function Next<T>(s: Store<T>, step: Step<T>): Store<T> {
    match step
    case Write(points) => Capped(s.(accepted := s.accepted + points), s.buffer + points)
    case BeginFlush => if s.buffer == [] then s else s.(buffer := [], inFlight := s.inFlight + [s.buffer])
    case FlushAnswered(i, took) =>
      if i >= |s.inFlight| then s
      else if s.inFlight[i] != [] && |Taken(s.inFlight[i], took)| == 0 then Requeued(s, i)
      else Delivered(s, i, took)
    case FlushFailed(i) => if i >= |s.inFlight| then s else Requeued(s, i)
  }

  function Run<T>(s: Store<T>, steps: seq<Step<T>>): Store<T>
    decreases steps
  {
    if steps == [] then s else Run(Next(s, steps[0]), steps[1..])
  }

  // ---------- the critical sections ----------

  class BatchingStorage<T> {
    const batchSize: int
    const maxBuffer: nat
    var buffer: seq<T>
    var droppedCount: nat
    /** The rest of the store's state, which no field of the source holds. */
    ghost var inFlight: seq<seq<T>>
    ghost var stored: seq<T>
    ghost var dropped: seq<T>
    ghost var lost: seq<T>
    ghost var accepted: seq<T>

    ghost function State(): Store<T>
      reads this
    {
      Store(maxBuffer, buffer, inFlight, stored, dropped, droppedCount, lost, accepted)
    }

    constructor (batchSize: int, maxBuffer: nat)
      ensures this.batchSize == batchSize && State() == Fresh(maxBuffer)
    {
      this.batchSize := batchSize;
      this.maxBuffer := maxBuffer;
      buffer, droppedCount := [], 0;
      inFlight, stored, dropped, lost, accepted := [], [], [], [], [];
    }

    /** Drops the oldest points while the buffer is over capacity. */
    method EnforceCap()
      modifies this`buffer, this`droppedCount, this`dropped
      ensures State() == Capped(old(State()), old(buffer))
      ensures |buffer| <= maxBuffer
    {
      var over := |buffer| - maxBuffer;
      if over > 0 {
        dropped := dropped + buffer[..over];
        var gone := 0;
        while gone < over
          modifies this`buffer
          invariant 0 <= gone <= over
          invariant buffer == old(buffer)[gone..]
        {
          buffer := buffer[1..];
          gone := gone + 1;
        }
        droppedCount := droppedCount + over;
      }
      assert old(buffer)[..0] == [] && dropped + [] == dropped;
    }

    /** Appends what a writer brings; tells it whether to flush. */
    method Accept(points: seq<T>) returns (full: bool)
      modifies this
      ensures State() == Next(old(State()), Write(points))
      ensures full == (|buffer| >= batchSize)
    {
      buffer := buffer + points;
      accepted := accepted + points;
      EnforceCap();
      full := |buffer| >= batchSize;
    }

    /** Takes the whole buffer as one batch; an empty batch means there is nothing to flush. */
    method Take() returns (batch: seq<T>)
      modifies this`buffer, this`inFlight
      ensures State() == Next(old(State()), BeginFlush)
      ensures batch == old(buffer)
      ensures batch != [] ==> inFlight == old(inFlight) + [batch]
    {
      batch := buffer;
      if batch == [] {
        return;
      }
      inFlight := inFlight + [batch];
      buffer := [];
    }

    /** Puts flush `i`'s batch back in front of the buffer. */
    method Requeue(batch: seq<T>, ghost i: nat)
      requires i < |inFlight| && batch == inFlight[i]
      modifies this
      ensures State() == Next(old(State()), FlushFailed(i))
    {
      var k := |batch|;
      while k > 0
        modifies this`buffer
        invariant 0 <= k <= |batch|
        invariant buffer == batch[k..] + old(buffer)
      {
        k := k - 1;
        buffer := [batch[k]] + buffer;
      }
      inFlight := Without(inFlight, i);
      EnforceCap();
    }

    /** The inner store reported how many points of flush `i` it took; only a report of none is a failure. */
    method Settle(batch: seq<T>, count: nat, ghost i: nat, ghost took: seq<bool>)
      requires i < |inFlight| && batch == inFlight[i] && count == |Taken(batch, took)|
      modifies this
      ensures State() == Next(old(State()), FlushAnswered(i, took))
    {
      if batch != [] && count == 0 {
        Requeue(batch, i);
      } else {
        stored := stored + Taken(batch, took);
        lost := lost + Left(batch, took);
        inFlight := Without(inFlight, i);
      }
    }
  }

  // ---------- conservation ----------

  function Flat<T>(batches: seq<seq<T>>): seq<T> {
    if batches == [] then [] else batches[0] + Flat(batches[1..])
  }

  lemma {:induction false} FlatAppend<T>(a: seq<seq<T>>, b: seq<seq<T>>)
    ensures Flat(a + b) == Flat(a) + Flat(b)
  {
    if a == [] {
      assert a + b == b;
    } else {
      assert (a + b)[1..] == a[1..] + b;
      FlatAppend(a[1..], b);
    }
  }

  lemma FlatOne<T>(batch: seq<T>)
    ensures Flat([batch]) == batch
  {
    assert [batch][1..] == [];
  }

  lemma FlatSplit<T>(batches: seq<seq<T>>, i: nat)
    requires i < |batches|
    ensures Flat(batches) == Flat(batches[..i]) + batches[i] + Flat(batches[i + 1..])
    ensures Flat(Without(batches, i)) == Flat(batches[..i]) + Flat(batches[i + 1..])
  {
    hide Flat;
    assert batches == batches[..i] + ([batches[i]] + batches[i + 1..]);
    FlatAppend(batches[..i], [batches[i]] + batches[i + 1..]);
    FlatAppend([batches[i]], batches[i + 1..]);
    FlatAppend(batches[..i], batches[i + 1..]);
    FlatOne(batches[i]);
  }

  lemma FlatWithout<T>(batches: seq<seq<T>>, i: nat)
    requires i < |batches|
    ensures multiset(Flat(batches)) == multiset(Flat(Without(batches, i))) + multiset(batches[i])
  {
    hide Flat, Without;
    FlatSplit(batches, i);
  }

  /** Every accepted point is stored, in flight, buffered, dropped or lost, exactly as often as it was accepted. */
  ghost predicate Conserved<T>(s: Store<T>) {
    multiset(s.accepted) ==
    multiset(s.stored) + multiset(Flat(s.inFlight)) + multiset(s.buffer) + multiset(s.dropped) + multiset(s.lost)
  }

  ghost predicate Sound<T>(s: Store<T>) {
    Conserved(s) && |s.buffer| <= s.max && s.droppedCount == |s.dropped|
  }

  lemma {:induction false} TakenAndLeft<T>(batch: seq<T>, took: seq<bool>)
    ensures multiset(batch) == multiset(Taken(batch, took)) + multiset(Left(batch, took))
    ensures Taken(batch, took) == [] ==> Left(batch, took) == batch
  {
    if batch != [] && took != [] {
      TakenAndLeft(batch[1..], took[1..]);
      assert batch == [batch[0]] + batch[1..];
    }
  }

  lemma CapSplits<T>(grown: seq<T>, max: nat)
    ensures var over := Overflow(grown, max);
      multiset(grown) == multiset(grown[..over]) + multiset(grown[over..]) && |grown[over..]| <= max
  {
    var over := Overflow(grown, max);
    assert grown == grown[..over] + grown[over..];
  }

  lemma CapConserves<T>(s: Store<T>, grown: seq<T>)
    requires Conserved(s.(buffer := grown)) && s.droppedCount == |s.dropped|
    ensures Sound(Capped(s, grown))
  {
    hide Flat;
    CapSplits(grown, s.max);
  }

  lemma WriteSound<T>(s: Store<T>, points: seq<T>)
    requires Sound(s)
    ensures Sound(Next(s, Write(points)))
  {
    hide Flat, Capped, Overflow;
    var s1 := s.(accepted := s.accepted + points);
    assert multiset(s.accepted + points) == multiset(s.accepted) + multiset(points);
    assert multiset(s.buffer + points) == multiset(s.buffer) + multiset(points);
    CapConserves(s1, s.buffer + points);
  }

  lemma BeginSound<T>(s: Store<T>)
    requires Sound(s)
    ensures Sound(Next(s, BeginFlush))
  {
    hide Flat;
    FlatAppend(s.inFlight, [s.buffer]);
    FlatOne(s.buffer);
  }

  lemma RequeueSound<T>(s: Store<T>, i: nat)
    requires Sound(s) && i < |s.inFlight|
    ensures Sound(Requeued(s, i))
  {
    hide Flat, Capped, Overflow, Without;
    FlatWithout(s.inFlight, i);
    var batch := s.inFlight[i];
    assert multiset(batch + s.buffer) == multiset(batch) + multiset(s.buffer);
    CapConserves(s.(inFlight := Without(s.inFlight, i)), batch + s.buffer);
  }

  lemma DeliverSound<T>(s: Store<T>, i: nat, took: seq<bool>)
    requires Sound(s) && i < |s.inFlight|
    ensures Sound(Delivered(s, i, took))
  {
    hide Flat, Taken, Left, Without;
    FlatWithout(s.inFlight, i);
    TakenAndLeft(s.inFlight[i], took);
  }

  lemma StepSound<T>(s: Store<T>, step: Step<T>)
    requires Sound(s)
    ensures Sound(Next(s, step)) && Next(s, step).max == s.max
  {
    hide Sound, Taken, Left;
    match step {
      case Write(points) => WriteSound(s, points);
      case BeginFlush => BeginSound(s);
      case FlushAnswered(i, took) => if i < |s.inFlight| { RequeueSound(s, i); DeliverSound(s, i, took); }
      case FlushFailed(i) => if i < |s.inFlight| { RequeueSound(s, i); }
    }
  }

  lemma {:induction false} RunKeepsSound<T>(s: Store<T>, steps: seq<Step<T>>)
    requires Sound(s)
    ensures Sound(Run(s, steps))
    decreases steps
  {
    if steps != [] {
      StepSound(s, steps[0]);
      RunKeepsSound(Next(s, steps[0]), steps[1..]);
    }
  }

  /**
   * Under every interleaving each accepted point is in exactly one place, the drops are counted, and the buffer is
   * within its cap whenever the lock is free.
   */
  lemma NothingLost<T>(max: nat, steps: seq<Step<T>>)
    ensures Sound(Run(Fresh<T>(max), steps))
  {
    hide Run;
    RunKeepsSound(Fresh<T>(max), steps);
  }

  /** The inner store took some of a batch and left some out. */
  predicate InPart<T>(s: Store<T>, step: Step<T>) {
    step.FlushAnswered? && step.i < |s.inFlight| &&
    Taken(s.inFlight[step.i], step.took) != [] && Left(s.inFlight[step.i], step.took) != []
  }

  predicate NeverInPart<T>(s: Store<T>, steps: seq<Step<T>>)
    decreases steps
  {
    steps == [] || (!InPart(s, steps[0]) && NeverInPart(Next(s, steps[0]), steps[1..]))
  }

  lemma LostByStep<T>(s: Store<T>, step: Step<T>)
    ensures |s.lost| <= |Next(s, step).lost|
    ensures |Next(s, step).lost| > |s.lost| <==> InPart(s, step)
  {
    hide Taken, Left, Without;
    if step.FlushAnswered? && step.i < |s.inFlight| {
      TakenAndLeft(s.inFlight[step.i], step.took);
    }
  }

  lemma {:induction false} LostByRun<T>(s: Store<T>, steps: seq<Step<T>>)
    ensures |s.lost| <= |Run(s, steps).lost|
    ensures |Run(s, steps).lost| == |s.lost| <==> NeverInPart(s, steps)
    decreases steps
  {
    hide Next, InPart;
    if steps != [] {
      LostByStep(s, steps[0]);
      LostByRun(Next(s, steps[0]), steps[1..]);
    }
  }

  /** Points go missing uncounted exactly when the inner store takes a batch in part. */
  lemma LostIffInPart<T>(max: nat, steps: seq<Step<T>>)
    ensures Run(Fresh<T>(max), steps).lost == [] <==> NeverInPart(Fresh<T>(max), steps)
  {
    hide Run, NeverInPart;
    LostByRun(Fresh<T>(max), steps);
  }

  /** While no more points were accepted than the buffer holds, none is dropped, however the flushes go. */
  lemma NoDropWithinCap<T>(max: nat, steps: seq<Step<T>>)
    requires |Run(Fresh<T>(max), steps).accepted| <= max
    ensures Run(Fresh<T>(max), steps).dropped == []
  {
    hide Run;
    NoDropFrom(Fresh<T>(max), steps);
  }

  lemma {:induction false} NoDropFrom<T>(s: Store<T>, steps: seq<Step<T>>)
    requires Sound(s) && s.dropped == [] && |Run(s, steps).accepted| <= s.max
    ensures Run(s, steps).dropped == []
    decreases steps
  {
    hide Sound;
    if steps != [] {
      var s' := Next(s, steps[0]);
      StepSound(s, steps[0]);
      AcceptedGrows(s', steps[1..]);
      NoDropStep(s, steps[0]);
      NoDropFrom(s', steps[1..]);
    }
  }

  lemma {:induction false} AcceptedGrows<T>(s: Store<T>, steps: seq<Step<T>>)
    ensures |s.accepted| <= |Run(s, steps).accepted|
    decreases steps
  {
    if steps != [] { AcceptedGrows(Next(s, steps[0]), steps[1..]); }
  }

  lemma SameSize<T>(s: seq<T>)
    ensures |multiset(s)| == |s|
  {}

  lemma Sizes<T>(s: Store<T>)
    requires Conserved(s)
    ensures |s.accepted| == |s.stored| + |Flat(s.inFlight)| + |s.buffer| + |s.dropped| + |s.lost|
  {
    hide Flat;
    SameSize(s.accepted);
    SameSize(s.stored);
    SameSize(Flat(s.inFlight));
    SameSize(s.buffer);
    SameSize(s.dropped);
    SameSize(s.lost);
  }

  lemma NoDropStep<T>(s: Store<T>, step: Step<T>)
    requires Sound(s) && s.dropped == [] && |Next(s, step).accepted| <= s.max
    ensures Next(s, step).dropped == []
  {
    hide Flat, Taken, Left, Without;
    Sizes(s);
    if (step.FlushFailed? || step.FlushAnswered?) && step.i < |s.inFlight| {
      FlatWithout(s.inFlight, step.i);
      SameSize(Flat(s.inFlight));
      SameSize(s.inFlight[step.i]);
    }
  }
}
