/** What the metrics registry means: the pure step each locked section takes, and the
    reading of the registry as a multiset of observations. */
module Metrics {
  import opened Wrappers

  datatype Outcome = Value | CodeDefault | FlagNotFound | InvalidRequest | NotReady | Timeout | Error

  /** Every outcome, in the order the exposition lists them. */
  const OUTCOMES: seq<Outcome> := [Value, CodeDefault, FlagNotFound, InvalidRequest, NotReady, Timeout, Error]

  /** Upper bounds of the duration histogram, in seconds. */
  const BUCKETS: seq<real> :=
    [0.0001, 0.00025, 0.0005, 0.001, 0.0025, 0.005, 0.01, 0.025, 0.05, 0.1, 0.25, 0.5, 1.0]

  const COUNTER_RANGE: nat := 0x1_0000_0000_0000_0000

  /** The counters are unsigned 64-bit and wrap silently. */
  function Wrap(n: nat): nat { n % COUNTER_RANGE }

  /** What wrapping means: nothing below the range, and the same again beyond it. */
  lemma WrapIsUint64(n: nat)
    ensures n < 0x1_0000_0000_0000_0000 ==> Wrap(n) == n
    ensures Wrap(n + 0x1_0000_0000_0000_0000) == Wrap(n)
  {}

  datatype Histogram = Histogram(counts: seq<nat>, sum: real, total: nat)

  datatype Observation = Observation(outcome: Outcome, seconds: real)

  datatype Registry = Registry(
    evaluations: map<Outcome, nat>,
    durations: map<Outcome, Histogram>,
    providerAt: Option<int>,
    lastError: Option<string>)

  function EmptyHistogram(): Histogram { Histogram(seq(|BUCKETS|, i => 0), 0.0, 0) }

  const EMPTY := Registry(map[], map[], None, None)

  /** Counts one duration in every bucket whose upper bound it does not exceed. */
  function Bump(counts: seq<nat>, bounds: seq<real>, seconds: real): (r: seq<nat>)
    requires |counts| == |bounds|
    ensures |r| == |bounds|
  {
    seq(|bounds|, i requires 0 <= i < |bounds| =>
      if seconds <= bounds[i] then Wrap(counts[i] + 1) else counts[i])
  }

  function Extend(h: Histogram, seconds: real): (r: Histogram)
    requires |h.counts| == |BUCKETS|
    ensures |r.counts| == |BUCKETS|
  {
    Histogram(Bump(h.counts, BUCKETS, seconds), h.sum + seconds, Wrap(h.total + 1))
  }

  /** Every histogram of the registry carries one counter per bound. */
  ghost predicate Shaped(m: Registry) {
    forall o :: o in m.durations ==> |m.durations[o].counts| == |BUCKETS|
  }

  /** The counter of an outcome, 0 when it never happened. */
  function Counter(evaluations: map<Outcome, nat>, o: Outcome): nat {
    if o in evaluations then evaluations[o] else 0
  }

  function Counted(m: Registry, o: Outcome): Registry {
    m.(evaluations := m.evaluations[o := Wrap(Counter(m.evaluations, o) + 1)])
  }

  function Provided(m: Registry, o: Outcome): (r: Registry)
    requires Shaped(m)
    ensures Shaped(r) && o in r.durations
  {
    if o in m.durations then m else m.(durations := m.durations[o := EmptyHistogram()])
  }

  function Timed(m: Registry, o: Outcome, seconds: real): (r: Registry)
    requires Shaped(m) && o in m.durations
    ensures Shaped(r)
  {
    m.(durations := m.durations[o := Extend(m.durations[o], seconds)])
  }

  /** One observation: counted, given a histogram if it is the outcome's first, and timed. */
  function Observe(m: Registry, x: Observation): (r: Registry)
    requires Shaped(m)
    ensures Shaped(r)
  {
    Timed(Provided(Counted(m, x.outcome), x.outcome), x.outcome, x.seconds)
  }

  function ReadyAt(m: Registry, at: int): Registry { m.(providerAt := Some(at)) }

  function Fail(m: Registry, message: string): Registry { m.(lastError := Some(message)) }

  /** The registry after a sequence of observations. */
  function Replay(xs: seq<Observation>): (r: Registry)
    ensures Shaped(r)
  {
    if xs == [] then EMPTY else Observe(Replay(xs[..|xs| - 1]), xs[|xs| - 1])
  }

  // ----- the reference reading: counting and summing a list of observations

  predicate Hits(x: Observation, o: Outcome, bound: Option<real>) {
    x.outcome == o && (bound.Some? ==> x.seconds <= bound.value)
  }

  /** How many observations have outcome `o` and, when a bound is given, lie at or below it. */
  function Tally(xs: seq<Observation>, o: Outcome, bound: Option<real>): (n: nat)
    ensures n <= |xs|
  {
    if xs == [] then 0
    else Tally(xs[..|xs| - 1], o, bound) + if Hits(xs[|xs| - 1], o, bound) then 1 else 0
  }

  function Seconds(xs: seq<Observation>, o: Outcome): real {
    if xs == [] then 0.0
    else Seconds(xs[..|xs| - 1], o) + if xs[|xs| - 1].outcome == o then xs[|xs| - 1].seconds else 0.0
  }

  ghost predicate BucketsTell(counts: seq<nat>, bounds: seq<real>, xs: seq<Observation>, o: Outcome) {
    && |counts| == |bounds|
    && forall i :: 0 <= i < |bounds| ==> counts[i] == Wrap(Tally(xs, o, Some(bounds[i])))
  }

  ghost predicate HistogramTells(h: Histogram, xs: seq<Observation>, o: Outcome) {
    && BucketsTell(h.counts, BUCKETS, xs, o)
    && h.sum == Seconds(xs, o)
    && h.total == Wrap(Tally(xs, o, None))
  }

  /** What the registry must hold for one outcome after `xs`. */
  ghost predicate Tells(m: Registry, xs: seq<Observation>, o: Outcome) {
    && (o in m.evaluations <==> Tally(xs, o, None) > 0)
    && (o in m.durations <==> Tally(xs, o, None) > 0)
    && (o in m.evaluations ==> m.evaluations[o] == Wrap(Tally(xs, o, None)))
    && (o in m.durations ==> HistogramTells(m.durations[o], xs, o))
  }

  lemma {:induction false} NothingTallied(xs: seq<Observation>, o: Outcome, bound: Option<real>)
    requires Tally(xs, o, None) == 0
    ensures Tally(xs, o, bound) == 0 && Seconds(xs, o) == 0.0
  {
    if xs != [] { NothingTallied(xs[..|xs| - 1], o, bound); }
  }

  lemma WrapStep(n: nat)
    ensures Wrap(Wrap(n) + 1) == Wrap(n + 1)
  {}

  lemma BucketStep(counts: seq<nat>, bounds: seq<real>, xs: seq<Observation>, o: Outcome)
    requires xs != [] && BucketsTell(counts, bounds, xs[..|xs| - 1], o)
    ensures xs[|xs| - 1].outcome == o ==> BucketsTell(Bump(counts, bounds, xs[|xs| - 1].seconds), bounds, xs, o)
    ensures xs[|xs| - 1].outcome != o ==> BucketsTell(counts, bounds, xs, o)
  {
    forall i | 0 <= i < |counts| {
      WrapStep(Tally(xs[..|xs| - 1], o, Some(bounds[i])));
    }
  }

  lemma HistogramStep(h: Histogram, xs: seq<Observation>, o: Outcome)
    requires xs != [] && HistogramTells(h, xs[..|xs| - 1], o)
    ensures xs[|xs| - 1].outcome == o ==> HistogramTells(Extend(h, xs[|xs| - 1].seconds), xs, o)
    ensures xs[|xs| - 1].outcome != o ==> HistogramTells(h, xs, o)
  {
    BucketStep(h.counts, BUCKETS, xs, o);
    WrapStep(Tally(xs[..|xs| - 1], o, None));
  }

  lemma HistogramStart(xs: seq<Observation>, o: Outcome)
    requires Tally(xs, o, None) == 0
    ensures HistogramTells(EmptyHistogram(), xs, o)
  {
    NothingTallied(xs, o, None);
    forall i | 0 <= i < |BUCKETS| {
      NothingTallied(xs, o, Some(BUCKETS[i]));
    }
  }

  lemma ObserveTells(m: Registry, xs: seq<Observation>, o: Outcome)
    requires Shaped(m) && xs != [] && Tells(m, xs[..|xs| - 1], o)
    ensures Tells(Observe(m, xs[|xs| - 1]), xs, o)
  {
    if xs[|xs| - 1].outcome == o { ObserveTellsOwn(m, xs, o); } else { ObserveTellsOther(m, xs, o); }
  }

  lemma ObserveTellsOther(m: Registry, xs: seq<Observation>, o: Outcome)
    requires Shaped(m) && xs != [] && Tells(m, xs[..|xs| - 1], o) && xs[|xs| - 1].outcome != o
    ensures Tells(Observe(m, xs[|xs| - 1]), xs, o)
  {
    if o in m.durations { HistogramStep(m.durations[o], xs, o); }
  }

  lemma ObserveTellsOwn(m: Registry, xs: seq<Observation>, o: Outcome)
    requires Shaped(m) && xs != [] && Tells(m, xs[..|xs| - 1], o) && xs[|xs| - 1].outcome == o
    ensures Tells(Observe(m, xs[|xs| - 1]), xs, o)
  {
    var front := xs[..|xs| - 1];
    WrapStep(Tally(front, o, None));
    if o !in m.durations { HistogramStart(front, o); }
    HistogramStep(if o in m.durations then m.durations[o] else EmptyHistogram(), xs, o);
  }

  /** Histogram refinement: after any observations, each outcome's counter, bucket counters,
      sum and total are exactly the counts and sum of its own observations. */
  lemma {:induction false} ReplayTells(xs: seq<Observation>, o: Outcome)
    ensures Tells(Replay(xs), xs, o)
  {
    if xs != [] {
      ReplayTells(xs[..|xs| - 1], o);
      ObserveTells(Replay(xs[..|xs| - 1]), xs, o);
    }
  }

  // ----- every observation has one outcome

  /** The observations of the first `n` outcomes. */
  function TallySum(xs: seq<Observation>, n: nat): nat
    requires n <= |OUTCOMES|
  {
    if n == 0 then 0 else TallySum(xs, n - 1) + Tally(xs, OUTCOMES[n - 1], None)
  }

  function Index(o: Outcome): (i: nat)
    ensures i < |OUTCOMES| && OUTCOMES[i] == o
  {
    match o
    case Value => 0
    case CodeDefault => 1
    case FlagNotFound => 2
    case InvalidRequest => 3
    case NotReady => 4
    case Timeout => 5
    case Error => 6
  }

  lemma {:induction false} TallySumStep(xs: seq<Observation>, n: nat)
    requires xs != [] && n <= |OUTCOMES|
    ensures TallySum(xs, n) == TallySum(xs[..|xs| - 1], n) + if Index(xs[|xs| - 1].outcome) < n then 1 else 0
  {
    if n > 0 {
      TallySumStep(xs, n - 1);
      assert Index(OUTCOMES[n - 1]) == n - 1;
    }
  }

  lemma {:induction false} TallySumAll(xs: seq<Observation>)
    ensures TallySum(xs, |OUTCOMES|) == |xs|
  {
    if xs == [] {
      TallySumNothing(|OUTCOMES|);
    } else {
      TallySumAll(xs[..|xs| - 1]);
      TallySumStep(xs, |OUTCOMES|);
    }
  }

  lemma {:induction false} TallySumNothing(n: nat)
    requires n <= |OUTCOMES|
    ensures TallySum([], n) == 0
  {
    if n > 0 { TallySumNothing(n - 1); }
  }

  // ----- the order of observations is irrelevant

  lemma {:induction false} WithoutAt(xs: seq<Observation>, k: nat, o: Outcome, bound: Option<real>)
    requires k < |xs|
    ensures var rest := xs[..k] + xs[k + 1..];
            && Tally(xs, o, bound) == Tally(rest, o, bound) + (if Hits(xs[k], o, bound) then 1 else 0)
            && Seconds(xs, o) == Seconds(rest, o) + (if xs[k].outcome == o then xs[k].seconds else 0.0)
  {
    var rest, front := xs[..k] + xs[k + 1..], xs[..|xs| - 1];
    if k == |xs| - 1 {
      assert rest == front;
    } else {
      WithoutAt(front, k, o, bound);
      LastKept(xs, k);
    }
  }

  lemma LastKept(xs: seq<Observation>, k: nat)
    requires k < |xs| - 1
    ensures var rest, front := xs[..k] + xs[k + 1..], xs[..|xs| - 1];
            && front[k] == xs[k] && |rest| > 0 && rest[|rest| - 1] == xs[|xs| - 1]
            && rest[..|rest| - 1] == front[..k] + front[k + 1..]
  {}

  lemma Removed(xs: seq<Observation>, k: nat)
    requires k < |xs|
    ensures multiset(xs[..k] + xs[k + 1..]) == multiset(xs) - multiset{xs[k]}
  {
    assert xs == xs[..k] + [xs[k]] + xs[k + 1..];
    assert multiset(xs) == multiset(xs[..k]) + multiset{xs[k]} + multiset(xs[k + 1..]);
  }

  /** The last element of `xs` also stands in `ys`, and removing both keeps the bags equal. */
  lemma Matched(xs: seq<Observation>, ys: seq<Observation>) returns (k: nat)
    requires xs != [] && multiset(xs) == multiset(ys)
    ensures k < |ys| && ys[k] == xs[|xs| - 1]
    ensures multiset(xs[..|xs| - 1]) == multiset(ys[..k] + ys[k + 1..])
  {
    var front, x := xs[..|xs| - 1], xs[|xs| - 1];
    assert xs == front + [x];
    assert x in multiset(ys);
    k :| 0 <= k < |ys| && ys[k] == x;
    Removed(ys, k);
    Removed(xs, |xs| - 1);
    assert front + [] == xs[..|xs| - 1] + xs[|xs| - 1 + 1..];
  }

  lemma {:induction false} SameBag(xs: seq<Observation>, ys: seq<Observation>, o: Outcome, bound: Option<real>)
    requires multiset(xs) == multiset(ys)
    ensures Tally(xs, o, bound) == Tally(ys, o, bound) && Seconds(xs, o) == Seconds(ys, o)
  {
    if xs == [] {
      assert |multiset(ys)| == 0;
    } else {
      var front, x := xs[..|xs| - 1], xs[|xs| - 1];
      var k := Matched(xs, ys);
      SameBag(front, ys[..k] + ys[k + 1..], o, bound);
      WithoutAt(ys, k, o, bound);
    }
  }

  /** The registry depends only on the multiset of observations. */
  lemma {:induction false} OrderIrrelevant(xs: seq<Observation>, ys: seq<Observation>)
    requires multiset(xs) == multiset(ys)
    ensures Replay(xs) == Replay(ys)
  {
    var m, n := Replay(xs), Replay(ys);
    forall o: Outcome
      ensures o in m.evaluations <==> o in n.evaluations
      ensures o in m.durations <==> o in n.durations
      ensures o in m.evaluations ==> m.evaluations[o] == n.evaluations[o]
      ensures o in m.durations ==> m.durations[o] == n.durations[o]
    {
      ReplayTells(xs, o);
      ReplayTells(ys, o);
      SameBag(xs, ys, o, None);
      if o in m.durations {
        forall i | 0 <= i < |BUCKETS| ensures m.durations[o].counts[i] == n.durations[o].counts[i] {
          SameBag(xs, ys, o, Some(BUCKETS[i]));
        }
        assert m.durations[o].counts == n.durations[o].counts;
      }
    }
    assert m.evaluations == n.evaluations;
    assert m.durations == n.durations;
    ReplayOnlyCounts(xs);
    ReplayOnlyCounts(ys);
  }

  lemma {:induction false} ReplayOnlyCounts(xs: seq<Observation>)
    ensures Replay(xs).providerAt == None && Replay(xs).lastError == None
  {
    if xs != [] { ReplayOnlyCounts(xs[..|xs| - 1]); }
  }

  // ----- the exported series are a cumulative histogram, and bracket the sum

  lemma {:induction false} TallyGrows(xs: seq<Observation>, o: Outcome, low: real, high: Option<real>)
    requires high.Some? ==> low <= high.value
    ensures Tally(xs, o, Some(low)) <= Tally(xs, o, high)
  {
    if xs != [] { TallyGrows(xs[..|xs| - 1], o, low, high); }
  }

  ghost predicate Ascending(bounds: seq<real>) {
    forall i, j :: 0 <= i <= j < |bounds| ==> bounds[i] <= bounds[j]
  }

  /** The bounds in microseconds. */
  function Microseconds(): seq<int> {
    [100, 250, 500, 1_000, 2_500, 5_000, 10_000, 25_000, 50_000, 100_000, 250_000, 500_000, 1_000_000]
  }

  /** The bounds start below a millisecond and reach past the handler timeout's default of 200 ms. */
  lemma BucketsReach()
    ensures |BUCKETS| == |Microseconds()|
    ensures forall i :: 0 <= i < |BUCKETS| ==> BUCKETS[i] * 1_000_000.0 == Microseconds()[i] as real
    ensures BUCKETS[0] < 0.001 && BUCKETS[|BUCKETS| - 1] > 0.2
  {}

  lemma BucketsAscend()
    ensures Ascending(BUCKETS)
  {}

  /** Below the wrap-around the counters are the tallies themselves. */
  ghost predicate Unwrapped(counts: seq<nat>, bounds: seq<real>, xs: seq<Observation>, o: Outcome) {
    && |counts| == |bounds|
    && forall i :: 0 <= i < |bounds| ==> counts[i] == Tally(xs, o, Some(bounds[i]))
  }

  lemma WrapSmall(n: nat)
    requires n < COUNTER_RANGE
    ensures Wrap(n) == n
  {}

  lemma {:induction false} Unwrap(counts: seq<nat>, bounds: seq<real>, xs: seq<Observation>, o: Outcome)
    requires |xs| < COUNTER_RANGE && BucketsTell(counts, bounds, xs, o)
    ensures Unwrapped(counts, bounds, xs, o) && Wrap(Tally(xs, o, None)) == Tally(xs, o, None)
  {
    forall i | 0 <= i < |bounds| ensures counts[i] == Tally(xs, o, Some(bounds[i])) {
      WrapSmall(Tally(xs, o, Some(bounds[i])));
    }
    WrapSmall(Tally(xs, o, None));
  }

  lemma {:induction false} CountsCumulative(counts: seq<nat>, bounds: seq<real>, xs: seq<Observation>, o: Outcome)
    requires Ascending(bounds) && Unwrapped(counts, bounds, xs, o)
    ensures forall i, j :: 0 <= i <= j < |counts| ==> counts[i] <= counts[j] <= Tally(xs, o, None)
  {
    forall i, j | 0 <= i <= j < |counts| ensures counts[i] <= counts[j] <= Tally(xs, o, None) {
      TallyGrows(xs, o, bounds[i], Some(bounds[j]));
      TallyGrows(xs, o, bounds[j], None);
    }
  }

  /** Below the wrap-around the bucket counters never fall and never pass the total,
      and the total is the outcome's evaluation counter. */
  lemma {:induction false} Cumulative(xs: seq<Observation>, o: Outcome)
    requires |xs| < COUNTER_RANGE
    requires o in Replay(xs).durations
    ensures o in Replay(xs).evaluations
    ensures var h := Replay(xs).durations[o];
            && (forall i, j :: 0 <= i <= j < |h.counts| ==> h.counts[i] <= h.counts[j] <= h.total)
            && h.total == Replay(xs).evaluations[o]
  {
    ReplayTells(xs, o);
    BucketsAscend();
    Unwrap(Replay(xs).durations[o].counts, BUCKETS, xs, o);
    CountsCumulative(Replay(xs).durations[o].counts, BUCKETS, xs, o);
  }

  /** The bound below which bucket `i` counts, 0 before the first bucket. */
  function Bound(bounds: seq<real>, i: int): real
    requires -1 <= i < |bounds|
  {
    if i == -1 then 0.0 else bounds[i]
  }

  function Below(xs: seq<Observation>, o: Outcome, bounds: seq<real>, i: int): nat
    requires -1 <= i < |bounds|
  {
    if i == -1 then 0 else Tally(xs, o, Some(bounds[i]))
  }

  /** The product of a count and a bound, as repeated addition. */
  function Times(n: int, bound: real): real
    decreases if n < 0 then -n else n
  {
    if n == 0 then 0.0 else if n > 0 then Times(n - 1, bound) + bound else Times(n + 1, bound) - bound
  }

  lemma {:induction false} TimesIsProduct(n: int, bound: real)
    ensures Times(n, bound) == n as real * bound
    decreases if n < 0 then -n else n
  {
    if n > 0 {
      TimesIsProduct(n - 1, bound);
      assert n as real == (n - 1) as real + 1.0;
    } else if n < 0 {
      TimesIsProduct(n + 1, bound);
      assert n as real == (n + 1) as real - 1.0;
    }
  }

  lemma TimesNext(n: int, bound: real)
    ensures Times(n + 1, bound) == Times(n, bound) + bound
  {}

  /** How many observations fall in bucket `n - 1`. */
  function Width(xs: seq<Observation>, o: Outcome, bounds: seq<real>, n: nat): int
    requires 0 < n <= |bounds|
  {
    Below(xs, o, bounds, n - 1) - Below(xs, o, bounds, n - 2)
  }

  /** The lower or the upper edge of bucket `n - 1`. */
  function EdgeOf(bounds: seq<real>, n: nat, upper: bool): real
    requires 0 < n <= |bounds|
  {
    Bound(bounds, if upper then n - 1 else n - 2)
  }

  predicate FallsIn(x: Observation, o: Outcome, bounds: seq<real>, n: nat)
    requires 0 < n <= |bounds|
  {
    x.outcome == o && x.seconds <= bounds[n - 1] && (n == 1 || x.seconds > bounds[n - 2])
  }

  /** The mass of the first `n` buckets when each observation is moved to an edge of its
      bucket: the lower edge when `upper` is false, the upper edge otherwise. */
  function Mass(xs: seq<Observation>, o: Outcome, bounds: seq<real>, n: nat, upper: bool): real
    requires n <= |bounds|
  {
    if n == 0 then 0.0
    else Mass(xs, o, bounds, n - 1, upper) + Times(Width(xs, o, bounds, n), EdgeOf(bounds, n, upper))
  }

  /** The edge one observation contributes to `Mass` over the first `n` buckets. */
  function Edge(x: Observation, o: Outcome, bounds: seq<real>, n: nat, upper: bool): real
    requires n <= |bounds|
  {
    if n == 0 || x.outcome != o then 0.0
    else if FallsIn(x, o, bounds, n) then EdgeOf(bounds, n, upper)
    else Edge(x, o, bounds, n - 1, upper)
  }

  lemma {:induction false} EdgeAbsent(x: Observation, o: Outcome, bounds: seq<real>, n: nat, upper: bool)
    requires Ascending(bounds) && n <= |bounds|
    requires x.outcome != o || n == 0 || x.seconds > bounds[n - 1]
    ensures Edge(x, o, bounds, n, upper) == 0.0
  {
    if n >= 2 { EdgeAbsent(x, o, bounds, n - 1, upper); }
  }

  /** One more observation changes the width of bucket `n - 1` by one exactly when it falls in it. */
  lemma {:induction false} WidthStep(xs: seq<Observation>, o: Outcome, bounds: seq<real>, n: nat)
    requires xs != [] && Ascending(bounds) && 0 < n <= |bounds|
    ensures Width(xs, o, bounds, n)
         == Width(xs[..|xs| - 1], o, bounds, n) + if FallsIn(xs[|xs| - 1], o, bounds, n) then 1 else 0
  {}

  lemma {:induction false} MassStep(xs: seq<Observation>, o: Outcome, bounds: seq<real>, n: nat, upper: bool)
    requires xs != [] && Ascending(bounds) && n <= |bounds|
    ensures Mass(xs, o, bounds, n, upper)
         == Mass(xs[..|xs| - 1], o, bounds, n, upper) + Edge(xs[|xs| - 1], o, bounds, n, upper)
  {
    if n > 0 {
      MassStep(xs, o, bounds, n - 1, upper);
      WidthStep(xs, o, bounds, n);
      TimesNext(Width(xs[..|xs| - 1], o, bounds, n), EdgeOf(bounds, n, upper));
      EdgeStep(xs[|xs| - 1], o, bounds, n, upper);
    }
  }

  lemma EdgeStep(x: Observation, o: Outcome, bounds: seq<real>, n: nat, upper: bool)
    requires Ascending(bounds) && 0 < n <= |bounds|
    ensures Edge(x, o, bounds, n, upper)
         == Edge(x, o, bounds, n - 1, upper) + if FallsIn(x, o, bounds, n) then EdgeOf(bounds, n, upper) else 0.0
  {
    if FallsIn(x, o, bounds, n) { EdgeAbsent(x, o, bounds, n - 1, upper); }
  }

  lemma {:induction false} EdgeBrackets(x: Observation, bounds: seq<real>, n: nat)
    requires 0 < n <= |bounds| && 0.0 <= x.seconds <= Bound(bounds, n - 1)
    ensures Edge(x, x.outcome, bounds, n, false) <= x.seconds <= Edge(x, x.outcome, bounds, n, true)
  {
    if n > 1 && x.seconds <= Bound(bounds, n - 2) { EdgeBrackets(x, bounds, n - 1); }
  }

  ghost predicate NonNegative(xs: seq<Observation>) {
    forall k :: 0 <= k < |xs| ==> xs[k].seconds >= 0.0
  }

  ghost predicate Within(xs: seq<Observation>, o: Outcome, bound: real) {
    forall k :: 0 <= k < |xs| && xs[k].outcome == o ==> xs[k].seconds <= bound
  }

  /** Observations above the last bound, counted at that bound. */
  function Overflow(xs: seq<Observation>, o: Outcome, last: real): real {
    Times(Tally(xs, o, None) - Tally(xs, o, Some(last)), last)
  }

  lemma {:induction false} OverflowStep(xs: seq<Observation>, o: Outcome, last: real)
    requires xs != []
    ensures Overflow(xs, o, last) == Overflow(xs[..|xs| - 1], o, last)
              + if xs[|xs| - 1].outcome == o && xs[|xs| - 1].seconds > last then last else 0.0
  {
    TimesNext(Tally(xs[..|xs| - 1], o, None) - Tally(xs[..|xs| - 1], o, Some(last)), last);
  }

  /** The contributions of one observation bracket its duration. */
  lemma EdgesFit(x: Observation, o: Outcome, bounds: seq<real>)
    requires Ascending(bounds) && bounds != [] && x.seconds >= 0.0
    ensures var n, last, own := |bounds|, bounds[|bounds| - 1], if x.outcome == o then x.seconds else 0.0;
            && own >= Edge(x, o, bounds, n, false) + (if x.outcome == o && x.seconds > last then last else 0.0)
            && ((x.outcome == o ==> x.seconds <= last) ==> own <= Edge(x, o, bounds, n, true))
  {
    var n := |bounds|;
    if x.outcome == o && x.seconds <= bounds[n - 1] {
      EdgeBrackets(x, bounds, n);
    } else {
      EdgeAbsent(x, o, bounds, n, false);
      EdgeAbsent(x, o, bounds, n, true);
    }
  }

  lemma {:induction false} Bracketed(xs: seq<Observation>, o: Outcome, bounds: seq<real>)
    requires NonNegative(xs) && Ascending(bounds) && bounds != []
    ensures var last := bounds[|bounds| - 1];
            && Seconds(xs, o) >= Mass(xs, o, bounds, |bounds|, false) + Overflow(xs, o, last)
            && (Within(xs, o, last) ==> Seconds(xs, o) <= Mass(xs, o, bounds, |bounds|, true))
  {
    var n, last := |bounds|, bounds[|bounds| - 1];
    if xs == [] {
      MassOfNothing(o, bounds, n, false);
      MassOfNothing(o, bounds, n, true);
    } else {
      Bracketed(xs[..|xs| - 1], o, bounds);
      MassStep(xs, o, bounds, n, false);
      MassStep(xs, o, bounds, n, true);
      OverflowStep(xs, o, last);
      EdgesFit(xs[|xs| - 1], o, bounds);
    }
  }

  lemma {:induction false} MassOfNothing(o: Outcome, bounds: seq<real>, n: nat, upper: bool)
    requires n <= |bounds|
    ensures Mass([], o, bounds, n, upper) == 0.0
  {
    if n > 0 { MassOfNothing(o, bounds, n - 1, upper); }
  }

  /** What the exported counters say about the sum: each step of the cumulative counts weighed
      with an edge of its bucket. */
  function Exported(counts: seq<nat>, bounds: seq<real>, n: nat, upper: bool): real
    requires |counts| == |bounds| && n <= |bounds|
  {
    if n == 0 then 0.0
    else
      Exported(counts, bounds, n - 1, upper)
      + Times(counts[n - 1] as int - (if n == 1 then 0 else counts[n - 2]), EdgeOf(bounds, n, upper))
  }

  lemma {:induction false} ExportedIsMass(counts: seq<nat>, bounds: seq<real>, xs: seq<Observation>, o: Outcome,
    n: nat, upper: bool)
    requires Unwrapped(counts, bounds, xs, o) && n <= |bounds|
    ensures Exported(counts, bounds, n, upper) == Mass(xs, o, bounds, n, upper)
  {
    if n > 0 { ExportedIsMass(counts, bounds, xs, o, n - 1, upper); }
  }

  /** The sum lies above what the counters give at the lower edges (overflow counted at the last bound)
      and, when nothing overflows, below what they give at the upper edges. */
  predicate SumWithin(h: Histogram) {
    var n, last := |BUCKETS|, BUCKETS[|BUCKETS| - 1];
    && |h.counts| == n
    && h.sum >= Exported(h.counts, BUCKETS, n, false) + Times(h.total - h.counts[n - 1], last)
    && (h.counts[n - 1] == h.total ==> h.sum <= Exported(h.counts, BUCKETS, n, true))
  }

  /** After any observations of durations the recorded sum lies within what the counters say. */
  lemma {:induction false} SumBracketed(xs: seq<Observation>, o: Outcome)
    requires |xs| < COUNTER_RANGE && NonNegative(xs) && o in Replay(xs).durations
    ensures SumWithin(Replay(xs).durations[o])
  {
    ReplayTells(xs, o);
    var h := Replay(xs).durations[o];
    BucketsAscend();
    Unwrap(h.counts, BUCKETS, xs, o);
    BracketedCounters(h.counts, BUCKETS, xs, o);
  }

  lemma BracketedCounters(counts: seq<nat>, bounds: seq<real>, xs: seq<Observation>, o: Outcome)
    requires NonNegative(xs) && Ascending(bounds) && bounds != [] && Unwrapped(counts, bounds, xs, o)
    ensures var n, total := |bounds|, Tally(xs, o, None);
            && Seconds(xs, o) >= Exported(counts, bounds, n, false) + Times(total - counts[n - 1], bounds[n - 1])
            && (counts[n - 1] == total ==> Seconds(xs, o) <= Exported(counts, bounds, n, true))
  {
    var n := |bounds|;
    Bracketed(xs, o, bounds);
    ExportedIsMass(counts, bounds, xs, o, n, false);
    ExportedIsMass(counts, bounds, xs, o, n, true);
    if counts[n - 1] == Tally(xs, o, None) { NothingOverflows(xs, o, bounds[n - 1]); }
  }

  lemma {:induction false} NothingOverflows(xs: seq<Observation>, o: Outcome, last: real)
    requires Tally(xs, o, Some(last)) == Tally(xs, o, None)
    ensures Within(xs, o, last)
  {
    if xs != [] {
      TallyGrows(xs[..|xs| - 1], o, last, None);
      NothingOverflows(xs[..|xs| - 1], o, last);
    }
  }
}
