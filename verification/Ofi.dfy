/** Order-flow imbalance in batch: per-event contributions, window totals and the decile table. */
module Ofi {
  import opened Schemas
  import opened Sorting

  /** One two-sided top of book. */
  datatype BboEvent = BboEvent(tMs: int, bidPx: Price, bidSz: Size, askPx: Price, askSz: Size)

  type Flow = (int, real)

  /** The change in depth at the touch from one top of book to the next. */
  function Contribution(prev: BboEvent, cur: BboEvent): real {
    (if cur.bidPx >= prev.bidPx then cur.bidSz else 0.0) - (if cur.bidPx <= prev.bidPx then prev.bidSz else 0.0)
    - (if cur.askPx <= prev.askPx then cur.askSz else 0.0) + (if cur.askPx >= prev.askPx then prev.askSz else 0.0)
  }

  function Flows(events: seq<BboEvent>): (r: seq<Flow>)
    ensures |r| == if |events| < 2 then 0 else |events| - 1
  {
    if |events| < 2 then [] else
      var n := |events| - 1;
      Flows(events[..n]) + [(events[n].tMs, Contribution(events[n - 1], events[n]))]
  }

  function FlowSum(flows: seq<Flow>): real {
    if flows == [] then 0.0 else FlowSum(flows[..|flows| - 1]) + flows[|flows| - 1].1
  }

  method OfiSeries(events: seq<BboEvent>) returns (out: seq<Flow>)
    ensures out == Flows(events)
  {
    out := [];
    if events == [] {
      return;
    }
    for i := 1 to |events|
      invariant out == Flows(events[..i])
    {
      var prev, cur := events[i - 1], events[i];
      var e := 0.0;
      if cur.bidPx >= prev.bidPx { e := e + cur.bidSz; }
      if cur.bidPx <= prev.bidPx { e := e - prev.bidSz; }
      if cur.askPx <= prev.askPx { e := e - cur.askSz; }
      if cur.askPx >= prev.askPx { e := e + prev.askSz; }
      out := out + [(cur.tMs, e)];
      assert events[..i + 1][..i] == events[..i];
    }
    assert events[..|events|] == events;
  }

  /** While the touch prices stand still the flow adds up to the net change in bid depth less that in ask depth. */
  lemma {:induction false} StillTouchTelescopes(events: seq<BboEvent>)
    requires events != [] &&
      forall i :: 0 <= i < |events| ==> events[i].bidPx == events[0].bidPx && events[i].askPx == events[0].askPx
    ensures var last := events[|events| - 1];
      FlowSum(Flows(events)) == (last.bidSz - events[0].bidSz) - (last.askSz - events[0].askSz)
  {
    if |events| > 1 {
      var n := |events| - 1;
      StillTouchTelescopes(events[..n]);
      assert Flows(events)[..|Flows(events)| - 1] == Flows(events[..n]);
    }
  }

  function Mirror(e: BboEvent): BboEvent {
    BboEvent(e.tMs, -e.askPx, e.askSz, -e.bidPx, e.bidSz)
  }

  function Mirrored(events: seq<BboEvent>): (r: seq<BboEvent>)
    ensures |r| == |events| && forall i :: 0 <= i < |r| ==> r[i] == Mirror(events[i])
  {
    seq(|events|, i requires 0 <= i < |events| => Mirror(events[i]))
  }

  /** Trading the two sides' places turns every flow around. */
  lemma {:induction false} MirrorNegates(events: seq<BboEvent>)
    ensures FlowSum(Flows(Mirrored(events))) == -FlowSum(Flows(events))
  {
    if |events| > 1 {
      var n, there := |events| - 1, Mirrored(events);
      MirrorNegates(events[..n]);
      assert there[..n] == Mirrored(events[..n]);
      assert Flows(events)[..n - 1] == Flows(events[..n]) && Flows(there)[..n - 1] == Flows(there[..n]);
    }
  }

  // ---------- windows ----------

  /** The flow of the events whose time lies in window `k`. */
  function WindowFlow(flows: seq<Flow>, windowMs: int, k: int): real
    requires windowMs > 0
  {
    if flows == [] then 0.0 else
      WindowFlow(flows[..|flows| - 1], windowMs, k) +
        if flows[|flows| - 1].0 / windowMs == k then flows[|flows| - 1].1 else 0.0
  }

  /** Some event falls in window `k`. */
  ghost predicate Sees(flows: seq<Flow>, windowMs: int, k: int)
    requires windowMs > 0
  {
    exists i :: 0 <= i < |flows| && flows[i].0 / windowMs == k
  }

  ghost predicate SumsByWindow(sums: map<int, real>, flows: seq<Flow>, windowMs: int)
    requires windowMs > 0
  {
    && (forall k :: k in sums <==> Sees(flows, windowMs, k))
    && (forall k :: k in sums ==> sums[k] == WindowFlow(flows, windowMs, k))
  }

  lemma {:induction false} NoFlowElsewhere(flows: seq<Flow>, windowMs: int, k: int)
    requires windowMs > 0 && !Sees(flows, windowMs, k)
    ensures WindowFlow(flows, windowMs, k) == 0.0
  {
    if flows != [] {
      assert flows[|flows| - 1].0 / windowMs != k;
      NoFlowElsewhere(flows[..|flows| - 1], windowMs, k);
    }
  }

  lemma WindowStep(sums: map<int, real>, flows: seq<Flow>, windowMs: int, f: Flow)
    requires windowMs > 0 && SumsByWindow(sums, flows, windowMs)
    ensures var k := f.0 / windowMs;
      SumsByWindow(sums[k := (if k in sums then sums[k] else 0.0) + f.1], flows + [f], windowMs)
  {
    var k, more := f.0 / windowMs, flows + [f];
    assert more[..|flows|] == flows && more[|flows|] == f;
    if k !in sums { NoFlowElsewhere(flows, windowMs, k); }
    forall j ensures Sees(more, windowMs, j) <==> j == k || Sees(flows, windowMs, j) {
      if j == k { assert more[|flows|].0 / windowMs == j; }
      if i :| 0 <= i < |flows| && flows[i].0 / windowMs == j { assert more[i].0 / windowMs == j; }
    }
  }

  ghost predicate InWindow(start: int, windowMs: int, t: int) {
    start <= t < start + windowMs
  }

  /** Some window holds the time `t`. */
  ghost predicate Covered(windows: seq<Flow>, windowMs: int, t: int) {
    exists j :: 0 <= j < |windows| && InWindow(windows[j].0, windowMs, t)
  }

  /** Some event falls in the window that starts at `start`. */
  ghost predicate Witnessed(flows: seq<Flow>, windowMs: int, start: int) {
    exists i :: 0 <= i < |flows| && InWindow(start, windowMs, flows[i].0)
  }

  /**
   * Aligned windows in time order, exactly those that saw an event, each with its own events' flow and nothing lost.
   */
  ghost predicate AreWindows(out: seq<Flow>, flows: seq<Flow>, windowMs: int)
    requires windowMs > 0
  {
    && (forall i, j :: 0 <= i < j < |out| ==> out[i].0 < out[j].0)
    && (forall i :: 0 <= i < |out| ==>
          out[i].0 % windowMs == 0 && out[i].1 == WindowFlow(flows, windowMs, out[i].0 / windowMs))
    && (forall i :: 0 <= i < |flows| ==> Covered(out, windowMs, flows[i].0))
    && (forall j :: 0 <= j < |out| ==> Witnessed(flows, windowMs, out[j].0))
    && FlowSum(out) == FlowSum(flows)
  }

  function WindowRows(ks: seq<int>, sums: map<int, real>, windowMs: int): (r: seq<Flow>)
    requires forall i :: 0 <= i < |ks| ==> ks[i] in sums
    ensures |r| == |ks| && forall i :: 0 <= i < |ks| ==> r[i] == (ks[i] * windowMs, sums[ks[i]])
  {
    seq(|ks|, i requires 0 <= i < |ks| => (ks[i] * windowMs, sums[ks[i]]))
  }

  /** The totals of the windows that saw an event, in time order. */
  method AggregateWindows(flows: seq<Flow>, windowMs: int) returns (out: seq<Flow>)
    requires windowMs > 0
    ensures AreWindows(out, flows, windowMs)
  {
    hide AreWindows, SumsByWindow, WindowRows;
    var sums: map<int, real> := map[];
    NoSums(windowMs);
    assert flows[..0] == [];
    for n := 0 to |flows|
      invariant SumsByWindow(sums, flows[..n], windowMs)
    {
      var k := flows[n].0 / windowMs;
      WindowStep(sums, flows[..n], windowMs, flows[n]);
      assert flows[..n + 1] == flows[..n] + [flows[n]];
      sums := sums[k := (if k in sums then sums[k] else 0.0) + flows[n].1];
    }
    assert flows[..|flows|] == flows;
    var ks := Listing(sums.Keys);
    assert forall i :: 0 <= i < |ks| ==> ks[i] in ks;
    out := WindowRows(ks, sums, windowMs);
    WindowsLaw(ks, sums, flows, windowMs);
  }

  lemma NoSums(windowMs: int)
    requires windowMs > 0
    ensures SumsByWindow(map[], [], windowMs)
  {}

  /** A multiple of `d` other than zero is at least `d` away from zero. */
  lemma FarFromZero(k: int, d: int)
    requires d > 0
    ensures (k >= 1 ==> k * d >= d) && (k <= -1 ==> k * d <= -d) && (k == 0 ==> k * d == 0)
  {
    if k >= 1 { assert (k - 1) * d >= 0 && k * d == (k - 1) * d + d; }
    if k <= -1 { assert (-k - 1) * d >= 0 && k * d == -((-k - 1) * d + d); }
  }

  lemma Quotient(x: int, q: int, d: int)
    requires d > 0
    ensures x / d == q <==> 0 <= x - q * d < d
  {
    FarFromZero(x / d - q, d);
    assert x == (x / d) * d + x % d;
    assert (x / d - q) * d == (x / d) * d - q * d;
  }

  lemma Multiple(k: int, windowMs: int)
    requires windowMs > 0
    ensures (k * windowMs) / windowMs == k && (k * windowMs) % windowMs == 0
  {
    var x := k * windowMs;
    Quotient(x, k, windowMs);
    assert x == (x / windowMs) * windowMs + x % windowMs;
  }

  lemma WindowsLaw(ks: seq<int>, sums: map<int, real>, flows: seq<Flow>, windowMs: int)
    requires windowMs > 0 && SumsByWindow(sums, flows, windowMs) && StrictlyAscending(ks) &&
      (forall k :: k in ks <==> k in sums)
    requires forall i :: 0 <= i < |ks| ==> ks[i] in sums
    ensures AreWindows(WindowRows(ks, sums, windowMs), flows, windowMs)
  {
    hide WindowFlow, FlowSum, Sees;
    var out := WindowRows(ks, sums, windowMs);
    forall i, j | 0 <= i < j < |out| ensures out[i].0 < out[j].0 {
      FarFromZero(ks[j] - ks[i], windowMs);
    }
    forall i | 0 <= i < |out|
      ensures out[i].0 % windowMs == 0 && out[i].1 == WindowFlow(flows, windowMs, out[i].0 / windowMs)
    {
      Multiple(ks[i], windowMs);
    }
    forall i | 0 <= i < |flows| ensures Covered(out, windowMs, flows[i].0) && flows[i].0 / windowMs in ks {
      var j := WindowOf(ks, sums, flows, windowMs, i);
      Quotient(flows[i].0, ks[j], windowMs);
      assert InWindow(out[j].0, windowMs, flows[i].0);
    }
    forall j | 0 <= j < |out| ensures Witnessed(flows, windowMs, out[j].0) {
      var i := EventOf(flows, windowMs, ks[j]);
      Quotient(flows[i].0, ks[j], windowMs);
      assert InWindow(out[j].0, windowMs, flows[i].0);
    }
    WindowsConserve(out, ks, flows, windowMs);
  }

  lemma WindowOf(ks: seq<int>, sums: map<int, real>, flows: seq<Flow>, windowMs: int, i: nat) returns (j: nat)
    requires windowMs > 0 && SumsByWindow(sums, flows, windowMs) && (forall k :: k in ks <==> k in sums) && i < |flows|
    ensures j < |ks| && ks[j] == flows[i].0 / windowMs
  {
    var k := flows[i].0 / windowMs;
    assert Sees(flows, windowMs, k);
    assert k in ks;
    j :| 0 <= j < |ks| && ks[j] == k;
  }

  lemma EventOf(flows: seq<Flow>, windowMs: int, k: int) returns (i: nat)
    requires windowMs > 0 && Sees(flows, windowMs, k)
    ensures i < |flows| && flows[i].0 / windowMs == k
  {
    i :| 0 <= i < |flows| && flows[i].0 / windowMs == k;
  }

  /** The windows of the first `n` keys hold the flow of the events that fall in them. */
  function FlowWithin(flows: seq<Flow>, windowMs: int, ks: seq<int>): real
    requires windowMs > 0
  {
    if flows == [] then 0.0 else
      FlowWithin(flows[..|flows| - 1], windowMs, ks) +
        if flows[|flows| - 1].0 / windowMs in ks then flows[|flows| - 1].1 else 0.0
  }

  lemma {:induction false} OneMoreWindow(flows: seq<Flow>, windowMs: int, ks: seq<int>, k: int)
    requires windowMs > 0 && k !in ks
    ensures FlowWithin(flows, windowMs, ks + [k]) == FlowWithin(flows, windowMs, ks) + WindowFlow(flows, windowMs, k)
  {
    if flows != [] { OneMoreWindow(flows[..|flows| - 1], windowMs, ks, k); }
  }

  lemma {:induction false} NoWindows(flows: seq<Flow>, windowMs: int)
    requires windowMs > 0
    ensures FlowWithin(flows, windowMs, []) == 0.0
  {
    if flows != [] { NoWindows(flows[..|flows| - 1], windowMs); }
  }

  lemma {:induction false} AllWindows(flows: seq<Flow>, windowMs: int, ks: seq<int>)
    requires windowMs > 0 && forall i :: 0 <= i < |flows| ==> flows[i].0 / windowMs in ks
    ensures FlowWithin(flows, windowMs, ks) == FlowSum(flows)
  {
    if flows != [] { AllWindows(flows[..|flows| - 1], windowMs, ks); }
  }

  lemma {:induction false} PrefixConserves(out: seq<Flow>, ks: seq<int>, flows: seq<Flow>, windowMs: int)
    requires windowMs > 0 && StrictlyAscending(ks) && |out| == |ks|
    requires forall i :: 0 <= i < |ks| ==> out[i].1 == WindowFlow(flows, windowMs, ks[i])
    ensures FlowSum(out) == FlowWithin(flows, windowMs, ks)
  {
    if ks == [] {
      NoWindows(flows, windowMs);
    } else {
      var n := |ks| - 1;
      PrefixConserves(out[..n], ks[..n], flows, windowMs);
      OneMoreWindow(flows, windowMs, ks[..n], ks[n]);
      assert ks == ks[..n] + [ks[n]];
    }
  }

  lemma WindowsConserve(out: seq<Flow>, ks: seq<int>, flows: seq<Flow>, windowMs: int)
    requires windowMs > 0 && StrictlyAscending(ks) && |out| == |ks|
    requires forall i :: 0 <= i < |ks| ==> out[i].1 == WindowFlow(flows, windowMs, ks[i])
    requires forall i :: 0 <= i < |flows| ==> flows[i].0 / windowMs in ks
    ensures FlowSum(out) == FlowSum(flows)
  {
    PrefixConserves(out, ks, flows, windowMs);
    AllWindows(flows, windowMs, ks);
  }

  // ---------- deciles ----------

  /** Window flow, forward mid change, and the mid it is relative to. */
  datatype Triple = Triple(ofi: real, change: real, mid: real)

  datatype DecileRow = DecileRow(decile: nat, n: nat, meanOfi: real, meanFwdBps: real)

  predicate ByOfi(s: seq<Triple>) {
    forall i, j :: 0 <= i < j < |s| ==> s[i].ofi <= s[j].ofi
  }

  function InsertByOfi(x: Triple, s: seq<Triple>): seq<Triple> {
    if s == [] || x.ofi <= s[0].ofi then [x] + s else [s[0]] + InsertByOfi(x, s[1..])
  }

  function SortByOfi(s: seq<Triple>): seq<Triple> {
    if s == [] then [] else InsertByOfi(s[0], SortByOfi(s[1..]))
  }

  lemma {:induction false} InsertKeepsAll(x: Triple, s: seq<Triple>)
    ensures multiset(InsertByOfi(x, s)) == multiset{x} + multiset(s)
  {
    if s != [] && x.ofi > s[0].ofi {
      InsertKeepsAll(x, s[1..]);
      assert s == [s[0]] + s[1..];
    }
  }

  lemma {:induction false} InsertByOfiLaw(x: Triple, s: seq<Triple>)
    requires ByOfi(s)
    ensures ByOfi(InsertByOfi(x, s)) && multiset(InsertByOfi(x, s)) == multiset{x} + multiset(s)
  {
    InsertKeepsAll(x, s);
    if s != [] && x.ofi > s[0].ofi {
      InsertByOfiLaw(x, s[1..]);
      var r := InsertByOfi(x, s[1..]);
      forall j | 0 <= j < |r| ensures s[0].ofi <= r[j].ofi {
        assert r[j] in multiset(r);
        assert r[j] == x || r[j] in s[1..];
      }
    }
  }

  lemma {:induction false} SortByOfiLaw(s: seq<Triple>)
    ensures ByOfi(SortByOfi(s)) && multiset(SortByOfi(s)) == multiset(s) && |SortByOfi(s)| == |s|
  {
    if s != [] {
      SortByOfiLaw(s[1..]);
      InsertByOfiLaw(s[0], SortByOfi(s[1..]));
      assert s == [s[0]] + s[1..];
      assert |multiset(SortByOfi(s))| == |multiset(s)|;
    }
  }

  function OfiSum(s: seq<Triple>): real {
    if s == [] then 0.0 else OfiSum(s[..|s| - 1]) + s[|s| - 1].ofi
  }

  /** Every triple has a mid to measure its change against. */
  predicate Marked(s: seq<Triple>) {
    forall i :: 0 <= i < |s| ==> s[i].mid != 0.0
  }

  function BpsSum(s: seq<Triple>): real
    requires Marked(s)
  {
    if s == [] then 0.0 else BpsSum(s[..|s| - 1]) + 10000.0 * s[|s| - 1].change / s[|s| - 1].mid
  }

  /** Where bucket `b` of `buckets` starts among `n` ranked triples. */
  function Cut(b: nat, n: nat, buckets: nat): (r: nat)
    requires buckets > 0
  {
    b * n / buckets
  }

  lemma DivStep(x: nat, n: nat, buckets: nat)
    requires buckets > 0
    ensures x / buckets + n / buckets <= (x + n) / buckets <= x / buckets + n / buckets + 1
  {
    var q, p, r := x / buckets, n / buckets, x % buckets + n % buckets;
    assert x + n == (q + p) * buckets + r;
    Quotient(x + n, q + p, buckets);
    Quotient(x + n, q + p + 1, buckets);
    assert (q + p + 1) * buckets == (q + p) * buckets + buckets;
  }

  lemma {:induction false} NotAbove(a: nat, b: nat, n: nat, buckets: nat)
    requires buckets > 0 && a <= b <= buckets
    ensures Cut(a, n, buckets) <= Cut(b, n, buckets) <= n
    decreases b - a
  {
    hide Cut;
    if a < b {
      CutStep(b - 1, n, buckets);
      NotAbove(a, b - 1, n, buckets);
    }
    NotAboveEnd(b, n, buckets);
  }

  lemma {:induction false} NotAboveEnd(b: nat, n: nat, buckets: nat)
    requires buckets > 0 && b <= buckets
    ensures Cut(b, n, buckets) <= n
    decreases buckets - b
  {
    hide Cut;
    if b < buckets {
      CutStep(b, n, buckets);
      NotAboveEnd(b + 1, n, buckets);
    } else {
      CutEnds(n, buckets);
    }
  }

  lemma CutEnds(n: nat, buckets: nat)
    requires buckets > 0
    ensures Cut(0, n, buckets) == 0 && Cut(buckets, n, buckets) == n
  {
    assert buckets * n == n * buckets;
    Multiple(n, buckets);
    Quotient(0, 0, buckets);
  }

  /** Every bucket holds the rounded-down share or one more. */
  lemma CutStep(b: nat, n: nat, buckets: nat)
    requires buckets > 0
    ensures n / buckets <= Cut(b + 1, n, buckets) - Cut(b, n, buckets) <= n / buckets + 1
  {
    DivStep(b * n, n, buckets);
    assert (b + 1) * n == b * n + n;
  }

  lemma AtLeastOne(n: nat, buckets: nat)
    requires 0 < buckets <= n
    ensures n / buckets >= 1
  {}

  /** The mean of ranked triples lies between the first and the last of them. */
  lemma {:induction false} MeanBetween(s: seq<Triple>)
    requires ByOfi(s) && s != []
    ensures s[0].ofi <= OfiSum(s) / |s| as real <= s[|s| - 1].ofi
  {
    SumBetween(s, s[0].ofi, s[|s| - 1].ofi);
    var n, sum, lo, hi := |s| as real, OfiSum(s), s[0].ofi, s[|s| - 1].ofi;
    DivBetween(sum, n, lo, hi);
  }

  lemma DivBetween(sum: real, n: real, lo: real, hi: real)
    requires n > 0.0 && lo * n <= sum <= hi * n
    ensures lo <= sum / n <= hi
  {
    assert (sum / n) * n == sum;
    OrderedBy(lo, sum / n, n);
    OrderedBy(sum / n, hi, n);
  }

  lemma OrderedBy(a: real, b: real, n: real)
    requires n > 0.0
    ensures a <= b <==> a * n <= b * n
  {
    assert b * n - a * n == (b - a) * n;
    assert b - a >= 0.0 ==> (b - a) * n >= 0.0;
    assert b - a < 0.0 ==> (a - b) * n > 0.0;
  }

  lemma {:induction false} SumBetween(s: seq<Triple>, lo: real, hi: real)
    requires forall i :: 0 <= i < |s| ==> lo <= s[i].ofi <= hi
    ensures lo * |s| as real <= OfiSum(s) <= hi * |s| as real
  {
    if s != [] {
      var n := |s| - 1;
      SumBetween(s[..n], lo, hi);
      assert |s| as real == n as real + 1.0;
      assert lo * (n as real + 1.0) == lo * n as real + lo && hi * (n as real + 1.0) == hi * n as real + hi;
    }
  }

  function RowOf(b: nat, chunk: seq<Triple>): DecileRow
    requires chunk != [] && Marked(chunk)
  {
    DecileRow(b + 1, |chunk|, OfiSum(chunk) / |chunk| as real, BpsSum(chunk) / |chunk| as real)
  }

  function Joined(chunks: seq<seq<Triple>>): seq<Triple> {
    if chunks == [] then [] else Joined(chunks[..|chunks| - 1]) + chunks[|chunks| - 1]
  }

  lemma JoinOne(chunks: seq<seq<Triple>>, chunk: seq<Triple>)
    ensures Joined(chunks + [chunk]) == Joined(chunks) + chunk
  {
    assert (chunks + [chunk])[..|chunks|] == chunks;
  }

  lemma MarksSurvive(triples: seq<Triple>, ordered: seq<Triple>)
    requires multiset(ordered) == multiset(triples) && Marked(triples)
    ensures Marked(ordered)
  {
    forall i | 0 <= i < |ordered| ensures ordered[i].mid != 0.0 {
      assert ordered[i] in multiset(ordered);
      assert ordered[i] in triples;
    }
  }

  /** Row `b` summarises its chunk, which holds its share of the ranked triples. */
  ghost predicate Filled(row: DecileRow, b: nat, chunk: seq<Triple>, ordered: seq<Triple>, buckets: nat)
    requires buckets > 0
  {
    var n := |ordered|;
    && Cut(b, n, buckets) < Cut(b + 1, n, buckets) <= n
    && chunk == ordered[Cut(b, n, buckets)..Cut(b + 1, n, buckets)] && Marked(chunk)
    && n / buckets <= |chunk| <= n / buckets + 1
    && row == RowOf(b, chunk) && chunk[0].ofi <= row.meanOfi <= chunk[|chunk| - 1].ofi
  }

  lemma FillRow(b: nat, ordered: seq<Triple>, buckets: nat)
    requires 0 < buckets <= |ordered| && b < buckets && ByOfi(ordered) && Marked(ordered)
    ensures var n := |ordered|; Cut(b, n, buckets) < Cut(b + 1, n, buckets) <= n
    ensures var chunk := ordered[Cut(b, |ordered|, buckets)..Cut(b + 1, |ordered|, buckets)];
      Marked(chunk) && Filled(RowOf(b, chunk), b, chunk, ordered, buckets)
  {
    hide Cut, OfiSum, BpsSum;
    var n := |ordered|;
    AtLeastOne(n, buckets);
    NotAbove(b, b + 1, n, buckets);
    CutStep(b, n, buckets);
    MeanBetween(ordered[Cut(b, n, buckets)..Cut(b + 1, n, buckets)]);
  }

  lemma MeanTimesCount(sum: real, n: nat)
    requires n > 0
    ensures (sum / n as real) * n as real == sum
  {}

  lemma RowLaw(row: DecileRow, b: nat, chunk: seq<Triple>, ordered: seq<Triple>, buckets: nat)
    requires buckets > 0 && Filled(row, b, chunk, ordered, buckets)
    ensures row.decile == b + 1 && row.n == |chunk| && chunk != [] &&
      |ordered| / buckets <= row.n <= |ordered| / buckets + 1
    ensures row.meanOfi * row.n as real == OfiSum(chunk) && Marked(chunk) &&
      row.meanFwdBps * row.n as real == BpsSum(chunk)
  {
    hide OfiSum, BpsSum, Cut;
    MeanTimesCount(OfiSum(chunk), |chunk|);
    MeanTimesCount(BpsSum(chunk), |chunk|);
  }

  /** Later buckets mean no less flow. */
  lemma MeansRise(
      row: DecileRow, a: nat, chunk: seq<Triple>, row': DecileRow, b: nat, chunk': seq<Triple>, ordered: seq<Triple>,
      buckets: nat)
    requires 0 < buckets && a < b < buckets && ByOfi(ordered)
    requires Filled(row, a, chunk, ordered, buckets) && Filled(row', b, chunk', ordered, buckets)
    ensures row.meanOfi <= row'.meanOfi
  {
    hide OfiSum, BpsSum, Cut;
    NotAbove(a + 1, b, |ordered|, buckets);
    assert chunk[|chunk| - 1] == ordered[Cut(a + 1, |ordered|, buckets) - 1];
    assert chunk'[0] == ordered[Cut(b, |ordered|, buckets)];
  }

  /** What the table promises of the chunks it summarises: an exact, even cut of the ranking with rising mean flow. */
  ghost predicate IsDecileTable(table: seq<DecileRow>, chunks: seq<seq<Triple>>, triples: seq<Triple>) {
    && |table| == |chunks| == (if |triples| < 10 then |triples| else 10)
    && Joined(chunks) == SortByOfi(triples)
    && (forall b :: 0 <= b < |table| ==> table[b].decile == b + 1 && table[b].n == |chunks[b]| && chunks[b] != [])
    && (forall b :: 0 <= b < |table| ==> |triples| / |table| <= table[b].n <= |triples| / |table| + 1)
    && (forall b :: 0 <= b < |table| ==> table[b].meanOfi * table[b].n as real == OfiSum(chunks[b]))
    && (forall b :: 0 <= b < |table| ==>
          Marked(chunks[b]) && table[b].meanFwdBps * table[b].n as real == BpsSum(chunks[b]))
    && (forall a, b :: 0 <= a < b < |table| ==> table[a].meanOfi <= table[b].meanOfi)
  }

  /** The first `b` rows are in place. */
  ghost predicate FilledTo(table: seq<DecileRow>, chunks: seq<seq<Triple>>, b: nat, ordered: seq<Triple>, buckets: nat)
    requires buckets > 0
  {
    && |table| == |chunks| == b && Cut(b, |ordered|, buckets) <= |ordered|
    && Joined(chunks) == ordered[..Cut(b, |ordered|, buckets)]
    && forall i :: 0 <= i < b ==> Filled(table[i], i, chunks[i], ordered, buckets)
  }

  lemma FillStep(table: seq<DecileRow>, chunks: seq<seq<Triple>>, b: nat, ordered: seq<Triple>, buckets: nat)
    requires 0 < buckets <= |ordered| && b < buckets && ByOfi(ordered) && Marked(ordered) &&
      FilledTo(table, chunks, b, ordered, buckets)
    ensures var n := |ordered|; Cut(b, n, buckets) < Cut(b + 1, n, buckets) <= n
    ensures var chunk := ordered[Cut(b, |ordered|, buckets)..Cut(b + 1, |ordered|, buckets)];
      chunk != [] && Marked(chunk) && FilledTo(table + [RowOf(b, chunk)], chunks + [chunk], b + 1, ordered, buckets)
  {
    hide Filled, Cut, Joined, RowOf, Marked;
    FillRow(b, ordered, buckets);
    var low, high := Cut(b, |ordered|, buckets), Cut(b + 1, |ordered|, buckets);
    JoinOne(chunks, ordered[low..high]);
    assert ordered[..low] + ordered[low..high] == ordered[..high];
  }

  lemma TableLaw(table: seq<DecileRow>, chunks: seq<seq<Triple>>, triples: seq<Triple>, buckets: nat)
    requires triples != [] && buckets == (if |triples| < 10 then |triples| else 10) && |SortByOfi(triples)| == |triples|
    requires ByOfi(SortByOfi(triples)) && FilledTo(table, chunks, buckets, SortByOfi(triples), buckets)
    ensures IsDecileTable(table, chunks, triples)
  {
    hide Filled, Cut, Joined, Marked, OfiSum, BpsSum, SortByOfi, ByOfi;
    var ordered := SortByOfi(triples);
    CutEnds(|ordered|, buckets);
    assert ordered[..|ordered|] == ordered;
    forall b | 0 <= b < buckets
      ensures table[b].decile == b + 1 && table[b].n == |chunks[b]| && chunks[b] != []
      ensures |triples| / buckets <= table[b].n <= |triples| / buckets + 1
      ensures table[b].meanOfi * table[b].n as real == OfiSum(chunks[b])
      ensures Marked(chunks[b]) && table[b].meanFwdBps * table[b].n as real == BpsSum(chunks[b])
    {
      RowLaw(table[b], b, chunks[b], ordered, buckets);
    }
    forall a, b | 0 <= a < b < buckets ensures table[a].meanOfi <= table[b].meanOfi {
      MeansRise(table[a], a, chunks[a], table[b], b, chunks[b], ordered, buckets);
    }
  }

  lemma NothingFilled(ordered: seq<Triple>, buckets: nat)
    requires buckets > 0
    ensures FilledTo([], [], 0, ordered, buckets)
  {
    CutEnds(|ordered|, buckets);
  }

  /** The `b`-th chunk of a ranking cut into `buckets`. */
  function Chunk(ordered: seq<Triple>, b: nat, buckets: nat): seq<Triple>
    requires b < buckets
  {
    NotAbove(b, b + 1, |ordered|, buckets);
    ordered[Cut(b, |ordered|, buckets)..Cut(b + 1, |ordered|, buckets)]
  }

  /** The chunks the table summarises. */
  function Chunks(triples: seq<Triple>): seq<seq<Triple>> {
    var ordered, buckets := SortByOfi(triples), if |triples| < 10 then |triples| else 10;
    seq(buckets, b requires 0 <= b < buckets => Chunk(ordered, b, buckets))
  }

  lemma AllChunks(table: seq<DecileRow>, chunks: seq<seq<Triple>>, triples: seq<Triple>, buckets: nat)
    requires triples != [] && buckets == (if |triples| < 10 then |triples| else 10)
    requires FilledTo(table, chunks, buckets, SortByOfi(triples), buckets)
    ensures chunks == Chunks(triples)
  {
    hide Cut, SortByOfi, RowOf, Marked, Joined;
    forall b | 0 <= b < buckets ensures chunks[b] == Chunk(SortByOfi(triples), b, buckets) {
      assert Filled(table[b], b, chunks[b], SortByOfi(triples), buckets);
    }
  }

  /** Mean flow and mean forward change by rank bucket. */
  method DecileTable(triples: seq<Triple>) returns (table: seq<DecileRow>)
    requires Marked(triples)
    ensures IsDecileTable(table, Chunks(triples), triples)
  {
    var n := |triples|;
    table := [];
    if n == 0 {
      return;
    }
    ghost var chunks: seq<seq<Triple>> := [];
    hide IsDecileTable, FilledTo, Cut, SortByOfi, ByOfi, Marked, RowOf, Chunks;
    var buckets := if n < 10 then n else 10;
    var ordered := SortByOfi(triples);
    SortByOfiLaw(triples);
    MarksSurvive(triples, ordered);
    NothingFilled(ordered, buckets);
    for b := 0 to buckets
      invariant FilledTo(table, chunks, b, ordered, buckets)
    {
      FillStep(table, chunks, b, ordered, buckets);
      var chunk := ordered[Cut(b, n, buckets)..Cut(b + 1, n, buckets)];
      if chunk != [] {
        table := table + [RowOf(b, chunk)];
        chunks := chunks + [chunk];
      }
    }
    TableLaw(table, chunks, triples, buckets);
    AllChunks(table, chunks, triples, buckets);
  }
}
