/** The Prometheus text of the registry: how it is built, and that it loses no count. */
module Exposition {
  import opened Wrappers
  import opened Text
  import opened Metrics
  import opened MetricsRegistry

  /** The library's printers: quoting of a label, a float in its shortest form, and seconds; and the
      wording of the HELP and TYPE lines, numbered in order. */
  datatype Printers = Printers(
    quote: string -> string,
    float: real -> string,
    timestamp: Option<int> -> string,
    comment: nat -> string)

  predicate OneLine(s: string) { '\n' !in s }

  ghost predicate Sane(p: Printers) {
    && (forall s :: OneLine(p.quote(s)))
    && (forall x :: OneLine(p.float(x)))
    && (forall t :: OneLine(p.timestamp(t)))
    && (forall i :: OneLine(p.comment(i)) && p.comment(i) != "" && p.comment(i)[0] == '#')
  }

  datatype Versions = Versions(version: string, ddTraceGo: string)

  function Label(o: Outcome): (s: string)
    ensures '"' !in s && OneLine(s)
  {
    match o
    case Value => "value"
    case CodeDefault => "code_default"
    case FlagNotFound => "flag_not_found"
    case InvalidRequest => "invalid_request"
    case NotReady => "not_ready"
    case Timeout => "timeout"
    case Error => "error"
  }

  const DURATION := "ddflagd_evaluation_duration_seconds"

  function CounterPrefix(o: Outcome): string { "ddflagd_evaluations_total{outcome=\"" + Label(o) + "\"} " }

  function BucketPrefix(o: Outcome, bound: string): string {
    DURATION + "_bucket{outcome=\"" + (Label(o) + "\"" + ",le=\"" + bound + "\"} ")
  }

  function CounterLine(evaluations: map<Outcome, nat>, o: Outcome): string {
    CounterPrefix(o) + Decimal(Counter(evaluations, o))
  }

  function BucketLine(p: Printers, o: Outcome, bound: real, count: nat): string {
    BucketPrefix(o, p.float(bound)) + Decimal(count)
  }

  /** The first `n` bucket lines of one outcome. */
  function BucketLines(p: Printers, o: Outcome, counts: seq<nat>, bounds: seq<real>, n: nat): (r: seq<string>)
    requires n <= |bounds| == |counts|
    ensures |r| == n && forall i :: 0 <= i < n ==> r[i] == BucketLine(p, o, bounds[i], counts[i])
  {
    if n == 0 then []
    else BucketLines(p, o, counts, bounds, n - 1) + [BucketLine(p, o, bounds[n - 1], counts[n - 1])]
  }

  function TotalLines(p: Printers, o: Outcome, sum: real, total: nat): seq<string> {
    [BucketPrefix(o, "+Inf") + Decimal(total),
     DURATION + "_sum{outcome=\"" + Label(o) + "\"} " + p.float(sum),
     CountLine(o, total)]
  }

  function CountLine(o: Outcome, total: nat): string {
    DURATION + "_count{outcome=\"" + (Label(o) + "\"" + ("} " + Decimal(total)))
  }

  function HistogramLines(p: Printers, o: Outcome, h: Histogram): (r: seq<string>)
    requires |h.counts| == |BUCKETS|
  {
    BucketLines(p, o, h.counts, BUCKETS, |BUCKETS|) + TotalLines(p, o, h.sum, h.total)
  }

  /** The outcomes listed: all of them once anything was observed, none before. */
  function KnownOutcomes(m: Registry): seq<Outcome> {
    if m.evaluations == map[] then [] else OUTCOMES
  }

  function CounterLines(evaluations: map<Outcome, nat>, outcomes: seq<Outcome>): (r: seq<string>)
    ensures |r| == |outcomes| && forall i :: 0 <= i < |r| ==> r[i] == CounterLine(evaluations, outcomes[i])
  {
    if outcomes == [] then []
    else CounterLines(evaluations, outcomes[..|outcomes| - 1]) + [CounterLine(evaluations, outcomes[|outcomes| - 1])]
  }

  function DurationLines(p: Printers, m: Registry, outcomes: seq<Outcome>): seq<string>
    requires Shaped(m)
  {
    if outcomes == [] then []
    else
      DurationLines(p, m, outcomes[..|outcomes| - 1]) + OutcomeLines(p, m, outcomes[|outcomes| - 1])
  }

  function OutcomeLines(p: Printers, m: Registry, o: Outcome): seq<string>
    requires Shaped(m)
  {
    if o in m.durations then HistogramLines(p, o, m.durations[o]) else []
  }

  function HeadLines(p: Printers, v: Versions): (r: seq<string>)
    ensures |r| == 5
  {
    [p.comment(0), p.comment(1),
     "ddflagd_build_info{version=" + p.quote(v.version) + ",dd_trace_go_version=" + p.quote(v.ddTraceGo) + "} 1",
     p.comment(2), p.comment(3)]
  }

  function MiddleLines(p: Printers): (r: seq<string>)
    ensures |r| == 2
  {
    [p.comment(4), p.comment(5)]
  }

  function TailLines(p: Printers, providerAt: Option<int>): (r: seq<string>)
    ensures r != [] && r[0] == p.comment(6)
  {
    [p.comment(6), p.comment(7),
     "ddflagd_provider_ready " + if providerAt.Some? then "1" else "0",
     p.comment(8), p.comment(9),
     "ddflagd_provider_ready_timestamp_seconds " + p.timestamp(providerAt)]
  }

  function Lines(p: Printers, v: Versions, m: Registry): seq<string>
    requires Shaped(m)
  {
    HeadLines(p, v) + CounterLines(m.evaluations, KnownOutcomes(m)) + MiddleLines(p)
    + DurationLines(p, m, KnownOutcomes(m)) + TailLines(p, m.providerAt)
  }

  /** The text of a list of lines. */
  function Unlines(lines: seq<string>): string {
    if lines == [] then "" else Unlines(lines[..|lines| - 1]) + lines[|lines| - 1] + "\n"
  }

  // ----- building the text

  lemma UnlinesNext(lines: seq<string>, line: string)
    ensures Unlines(lines + [line]) == Unlines(lines) + line + "\n"
  {
    assert (lines + [line])[..|lines + [line]| - 1] == lines;
  }

  lemma {:induction false} UnlinesAppend(a: seq<string>, b: seq<string>)
    ensures Unlines(a + b) == Unlines(a) + Unlines(b)
  {
    if b == [] {
      assert a + b == a;
    } else {
      UnlinesAppend(a, b[..|b| - 1]);
      assert (a + b)[..|a + b| - 1] == a + b[..|b| - 1];
    }
  }

  /** Writes lines one by one. */
  method WriteLines(lines: seq<string>) returns (text: string)
    ensures text == Unlines(lines)
  {
    text := "";
    for i := 0 to |lines|
      invariant text == Unlines(lines[..i])
    {
      assert lines[..i + 1] == lines[..i] + [lines[i]];
      UnlinesNext(lines[..i], lines[i]);
      text := text + lines[i] + "\n";
    }
    assert lines[..|lines|] == lines;
  }

  method WriteBuckets(p: Printers, o: Outcome, counts: seq<nat>, bounds: seq<real>) returns (text: string)
    requires |counts| == |bounds|
    ensures text == Unlines(BucketLines(p, o, counts, bounds, |bounds|))
  {
    var lines := [];
    for i := 0 to |bounds|
      invariant lines == BucketLines(p, o, counts, bounds, i)
    {
      lines := lines + [BucketLine(p, o, bounds[i], counts[i])];
    }
    text := WriteLines(lines);
  }

  method WriteHistogram(p: Printers, o: Outcome, cell: HistogramCell) returns (text: string)
    requires cell.Valid()
    ensures text == Unlines(HistogramLines(p, o, cell.View()))
  {
    var buckets := WriteBuckets(p, o, cell.counts[..], BUCKETS);
    var totals := WriteLines(TotalLines(p, o, cell.sum, cell.total));
    text := buckets + totals;
    UnlinesAppend(BucketLines(p, o, cell.counts[..], BUCKETS, |BUCKETS|), TotalLines(p, o, cell.sum, cell.total));
  }

  method WriteOutcome(p: Printers, registrar: Registrar, o: Outcome, ghost m: Registry) returns (text: string)
    requires registrar.Valid() && m == registrar.View()
    ensures text == Unlines(OutcomeLines(p, m, o))
  {
    text := "";
    if o in registrar.durations {
      text := WriteHistogram(p, o, registrar.durations[o]);
    }
  }

  method WriteDurations(p: Printers, registrar: Registrar, outcomes: seq<Outcome>) returns (text: string)
    requires registrar.Valid()
    ensures text == Unlines(DurationLines(p, registrar.View(), outcomes))
  {
    text := "";
    ghost var m := registrar.View();
    for i := 0 to |outcomes|
      invariant registrar.Valid() && registrar.View() == m
      invariant text == Unlines(DurationLines(p, m, outcomes[..i]))
    {
      var part := WriteOutcome(p, registrar, outcomes[i], m);
      DurationsNext(p, m, outcomes, i);
      text := text + part;
    }
    assert outcomes[..|outcomes|] == outcomes;
  }

  lemma DurationsNext(p: Printers, m: Registry, outcomes: seq<Outcome>, i: nat)
    requires Shaped(m) && i < |outcomes|
    ensures Unlines(DurationLines(p, m, outcomes[..i + 1]))
         == Unlines(DurationLines(p, m, outcomes[..i])) + Unlines(OutcomeLines(p, m, outcomes[i]))
  {
    assert outcomes[..i + 1][..i] == outcomes[..i];
    UnlinesAppend(DurationLines(p, m, outcomes[..i]), OutcomeLines(p, m, outcomes[i]));
  }

  lemma UnlinesFive(a: seq<string>, b: seq<string>, c: seq<string>, d: seq<string>, e: seq<string>)
    ensures Unlines(a + b + c + d + e) == Unlines(a) + Unlines(b) + Unlines(c) + Unlines(d) + Unlines(e)
  {
    UnlinesAppend(a, b);
    UnlinesAppend(a + b, c);
    UnlinesAppend(a + b + c, d);
    UnlinesAppend(a + b + c + d, e);
  }

  lemma LinesJoined(p: Printers, v: Versions, m: Registry,
    head: string, counters: string, middle: string, durations: string, tail: string)
    requires Shaped(m)
    requires head == Unlines(HeadLines(p, v)) && counters == Unlines(CounterLines(m.evaluations, KnownOutcomes(m)))
    requires middle == Unlines(MiddleLines(p)) && durations == Unlines(DurationLines(p, m, KnownOutcomes(m)))
    requires tail == Unlines(TailLines(p, m.providerAt))
    ensures Unlines(Lines(p, v, m)) == head + counters + middle + durations + tail
  {
    var known := KnownOutcomes(m);
    UnlinesFive(HeadLines(p, v), CounterLines(m.evaluations, known), MiddleLines(p),
      DurationLines(p, m, known), TailLines(p, m.providerAt));
  }

  /** The evaluation counters and the histograms. */
  method WriteSeries(p: Printers, registrar: Registrar) returns (counters: string, durations: string)
    requires registrar.Valid()
    ensures var m := registrar.View();
            && counters == Unlines(CounterLines(m.evaluations, KnownOutcomes(m)))
            && durations == Unlines(DurationLines(p, m, KnownOutcomes(m)))
  {
    var known := if registrar.evaluations == map[] then [] else OUTCOMES;
    counters := WriteLines(CounterLines(registrar.evaluations, known));
    durations := WriteDurations(p, registrar, known);
  }

  /** The exposition text of the registry. */
  method Render(p: Printers, v: Versions, registrar: Registrar) returns (text: string)
    requires registrar.Valid()
    ensures text == Unlines(Lines(p, v, registrar.View()))
  {
    var counters, durations := WriteSeries(p, registrar);
    var head, middle := Unlines(HeadLines(p, v)), Unlines(MiddleLines(p));
    var tail := Unlines(TailLines(p, registrar.providerAt));
    text := head + counters + middle + durations + tail;
    LinesJoined(p, v, registrar.View(), head, counters, middle, durations, tail);
  }

  // ----- the text determines its lines

  lemma {:induction false} DigitsAreOneLine(n: nat)
    ensures OneLine(Decimal(n))
  {
    if n >= 10 { DigitsAreOneLine(n / 10); }
  }

  lemma NotShorter(d: char, a: string, x: string, b: string, y: string)
    requires d !in b && a + [d] + x == b + [d] + y
    ensures |a| >= |b|
  {
    var s := a + [d] + x;
    assert s[|a|] == d;
    assert forall k :: 0 <= k < |b| ==> s[k] in b;
  }

  /** Two texts that agree up to a delimiter neither head contains have the same head. */
  lemma SameHead(d: char, a: string, x: string, b: string, y: string)
    requires d !in a && d !in b && a + [d] + x == b + [d] + y
    ensures a == b && x == y
  {
    NotShorter(d, a, x, b, y);
    NotShorter(d, b, y, a, x);
    assert a == (a + [d] + x)[..|a|] && b == (b + [d] + y)[..|b|];
    assert x == (a + [d] + x)[|a| + 1..] && y == (b + [d] + y)[|b| + 1..];
  }

  lemma NotLonger(a: string, x: string, b: string, y: string)
    requires OneLine(x) && (b == "" || b[|b| - 1] == '\n') && a + x == b + y
    ensures |b| <= |a|
  {
    var s := a + x;
    assert forall k :: |a| <= k < |s| ==> s[k] in x;
    assert |b| > 0 ==> s[|b| - 1] == b[|b| - 1];
  }

  /** The last line of a text is what follows its last but one newline. */
  lemma SameLast(a: string, x: string, b: string, y: string)
    requires OneLine(x) && OneLine(y) && (a == "" || a[|a| - 1] == '\n') && (b == "" || b[|b| - 1] == '\n')
    requires a + x == b + y
    ensures a == b && x == y
  {
    NotLonger(a, x, b, y);
    NotLonger(b, y, a, x);
    assert a == (a + x)[..|a|] && b == (b + y)[..|b|];
    assert x == (a + x)[|a|..] && y == (b + y)[|b|..];
  }

  predicate AllOneLine(lines: seq<string>) { forall i :: 0 <= i < |lines| ==> OneLine(lines[i]) }

  /** Lines without newlines can be read back from their text. */
  lemma {:induction false} UnlinesInjective(a: seq<string>, b: seq<string>)
    requires AllOneLine(a) && AllOneLine(b) && Unlines(a) == Unlines(b)
    ensures a == b
  {
    if a == [] || b == [] {
    } else {
      var s, t := Unlines(a[..|a| - 1]), Unlines(b[..|b| - 1]);
      var x, y := a[|a| - 1], b[|b| - 1];
      assert (s + x) + "\n" == (t + y) + "\n";
      assert s + x == (s + x + "\n")[..|s + x|] && t + y == (t + y + "\n")[..|t + y|];
      SameLast(s, x, t, y);
      UnlinesInjective(a[..|a| - 1], b[..|b| - 1]);
      assert a == a[..|a| - 1] + [x] && b == b[..|b| - 1] + [y];
    }
  }

  lemma Joined(a: string, b: string)
    requires OneLine(a) && OneLine(b)
    ensures OneLine(a + b)
  {}

  lemma PrefixIsOneLine(o: Outcome, bound: string)
    requires OneLine(bound)
    ensures OneLine(BucketPrefix(o, bound)) && OneLine(CounterPrefix(o))
  {
    Joined("ddflagd_evaluations_total{outcome=\"", Label(o));
    Joined(Label(o) + "\"", ",le=\"" + bound + "\"} ");
  }

  lemma HistogramOneLine(p: Printers, o: Outcome, h: Histogram)
    requires Sane(p) && |h.counts| == |BUCKETS|
    ensures AllOneLine(HistogramLines(p, o, h))
  {
    BucketsOneLine(p, o, h.counts, BUCKETS);
    TotalsOneLine(p, o, h.sum, h.total);
  }

  lemma FloatIsOneLine(p: Printers, x: real)
    requires Sane(p)
    ensures OneLine(p.float(x))
  {}

  lemma BucketsOneLine(p: Printers, o: Outcome, counts: seq<nat>, bounds: seq<real>)
    requires Sane(p) && |counts| == |bounds|
    ensures AllOneLine(BucketLines(p, o, counts, bounds, |bounds|))
  {
    forall i | 0 <= i < |bounds| ensures OneLine(BucketLine(p, o, bounds[i], counts[i])) {
      FloatIsOneLine(p, bounds[i]);
      PrefixIsOneLine(o, p.float(bounds[i]));
      DigitsAreOneLine(counts[i]);
    }
  }

  lemma TotalsOneLine(p: Printers, o: Outcome, sum: real, total: nat)
    requires Sane(p)
    ensures AllOneLine(TotalLines(p, o, sum, total))
  {
    PrefixIsOneLine(o, "+Inf");
    DigitsAreOneLine(total);
  }

  lemma {:induction false} DurationsOneLine(p: Printers, m: Registry, outcomes: seq<Outcome>)
    requires Sane(p) && Shaped(m)
    ensures AllOneLine(DurationLines(p, m, outcomes))
  {
    if outcomes != [] {
      var o := outcomes[|outcomes| - 1];
      DurationsOneLine(p, m, outcomes[..|outcomes| - 1]);
      if o in m.durations { HistogramOneLine(p, o, m.durations[o]); }
    }
  }

  lemma CountersOneLine(evaluations: map<Outcome, nat>, outcomes: seq<Outcome>)
    ensures AllOneLine(CounterLines(evaluations, outcomes))
  {
    forall i | 0 <= i < |outcomes| ensures OneLine(CounterLine(evaluations, outcomes[i])) {
      PrefixIsOneLine(outcomes[i], "");
      DigitsAreOneLine(Counter(evaluations, outcomes[i]));
    }
  }

  lemma FixedOneLine(p: Printers, v: Versions, providerAt: Option<int>)
    requires Sane(p)
    ensures AllOneLine(HeadLines(p, v)) && AllOneLine(MiddleLines(p)) && AllOneLine(TailLines(p, providerAt))
  {
    TailOneLine(p, providerAt);
  }

  lemma TailOneLine(p: Printers, providerAt: Option<int>)
    requires Sane(p)
    ensures AllOneLine(TailLines(p, providerAt))
  {}

  lemma LinesOneLine(p: Printers, v: Versions, m: Registry)
    requires Sane(p) && Shaped(m)
    ensures AllOneLine(Lines(p, v, m))
  {
    CountersOneLine(m.evaluations, KnownOutcomes(m));
    DurationsOneLine(p, m, KnownOutcomes(m));
    FixedOneLine(p, v, m.providerAt);
  }

  // ----- the lines determine the counts

  /** The counters and histograms exist for the same outcomes, as in every registry built from
      observations. */
  predicate KeysAgree(m: Registry) { m.evaluations.Keys == m.durations.Keys }

  lemma {:induction false} KeysAlwaysAgree(xs: seq<Observation>)
    ensures KeysAgree(Replay(xs))
  {
    forall o ensures o in Replay(xs).evaluations <==> o in Replay(xs).durations {
      ReplayTells(xs, o);
    }
  }

  lemma DecimalInjective(a: nat, b: nat)
    requires Decimal(a) == Decimal(b)
    ensures a == b
  {
    DecimalRoundTrip(a);
    DecimalRoundTrip(b);
  }

  lemma SameSuffix(prefix: string, x: string, y: string)
    requires prefix + x == prefix + y
    ensures x == y
  {
    assert x == (prefix + x)[|prefix|..] && y == (prefix + y)[|prefix|..];
  }

  /** Equal numbers of an outcome in two registries. */
  predicate SameCounts(m: Registry, n: Registry, o: Outcome)
    requires Shaped(m) && Shaped(n)
  {
    && Counter(m.evaluations, o) == Counter(n.evaluations, o)
    && (o in m.durations <==> o in n.durations)
    && (o in m.durations ==>
          m.durations[o].counts == n.durations[o].counts && m.durations[o].total == n.durations[o].total)
  }

  lemma BucketsRead(p: Printers, o: Outcome, a: seq<nat>, b: seq<nat>, bounds: seq<real>)
    requires |a| == |b| == |bounds|
    requires BucketLines(p, o, a, bounds, |bounds|) == BucketLines(p, o, b, bounds, |bounds|)
    ensures a == b
  {
    forall i | 0 <= i < |a| ensures a[i] == b[i] {
      var x, y := BucketLines(p, o, a, bounds, |bounds|), BucketLines(p, o, b, bounds, |bounds|);
      assert x[i] == y[i];
      SameSuffix(BucketPrefix(o, p.float(bounds[i])), Decimal(a[i]), Decimal(b[i]));
      DecimalInjective(a[i], b[i]);
    }
  }

  lemma HistogramRead(p: Printers, o: Outcome, h: Histogram, k: Histogram)
    requires |h.counts| == |k.counts| == |BUCKETS| && HistogramLines(p, o, h) == HistogramLines(p, o, k)
    ensures h.counts == k.counts && h.total == k.total
  {
    var x, y := BucketLines(p, o, h.counts, BUCKETS, |BUCKETS|), BucketLines(p, o, k.counts, BUCKETS, |BUCKETS|);
    SplitEqual(x, TotalLines(p, o, h.sum, h.total), y, TotalLines(p, o, k.sum, k.total));
    BucketsRead(p, o, h.counts, k.counts, BUCKETS);
    SameSuffix(BucketPrefix(o, "+Inf"), Decimal(h.total), Decimal(k.total));
    DecimalInjective(h.total, k.total);
  }

  lemma SplitEqual<T>(a: seq<T>, x: seq<T>, b: seq<T>, y: seq<T>)
    requires |a| == |b| && a + x == b + y
    ensures a == b && x == y
  {
    assert a == (a + x)[..|a|] && b == (b + y)[..|b|];
    assert x == (a + x)[|a|..] && y == (b + y)[|b|..];
  }

  lemma SplitEnd<T>(a: seq<T>, x: seq<T>, b: seq<T>, y: seq<T>)
    requires |x| == |y| && a + x == b + y
    ensures a == b && x == y
  {
    SplitEqual(a, x, b, y);
  }

  lemma LabelsDiffer(o: Outcome, q: Outcome)
    requires Label(o) == Label(q)
    ensures o == q
  {
    assert Label(Value)[0] == 'v' && Label(Error)[0] == 'e';
  }

  lemma CountLinesDiffer(o: Outcome, a: nat, q: Outcome, b: nat)
    requires CountLine(o, a) == CountLine(q, b)
    ensures o == q
  {
    var prefix := DURATION + "_count{outcome=\"";
    SameSuffix(prefix, Label(o) + "\"" + ("} " + Decimal(a)), Label(q) + "\"" + ("} " + Decimal(b)));
    SameHead('"', Label(o), "} " + Decimal(a), Label(q), "} " + Decimal(b));
    LabelsDiffer(o, q);
  }

  /** The last line of the histograms is the count of some outcome listed. */
  lemma {:induction false} LastIsCount(p: Printers, m: Registry, outcomes: seq<Outcome>)
    requires Shaped(m)
    ensures var lines := DurationLines(p, m, outcomes);
            lines != [] ==>
              exists o, total :: o in outcomes && o in m.durations && lines[|lines| - 1] == CountLine(o, total)
  {
    if outcomes != [] {
      var front, o := outcomes[..|outcomes| - 1], outcomes[|outcomes| - 1];
      LastIsCount(p, m, front);
      if o in m.durations {
        var h := m.durations[o];
        assert OutcomeLines(p, m, o)
            == BucketLines(p, o, h.counts, BUCKETS, |BUCKETS|) + TotalLines(p, o, h.sum, h.total);
        assert DurationLines(p, m, outcomes)[|DurationLines(p, m, outcomes)| - 1] == CountLine(o, h.total);
      } else {
        assert DurationLines(p, m, outcomes) == DurationLines(p, m, front);
      }
    }
  }

  ghost predicate Distinct(outcomes: seq<Outcome>) {
    forall i, j :: 0 <= i < j < |outcomes| ==> outcomes[i] != outcomes[j]
  }

  lemma SamePresence(p: Printers, m: Registry, n: Registry, outcomes: seq<Outcome>)
    requires Shaped(m) && Shaped(n) && outcomes != [] && Distinct(outcomes)
    requires DurationLines(p, m, outcomes) == DurationLines(p, n, outcomes)
    ensures outcomes[|outcomes| - 1] in m.durations ==> outcomes[|outcomes| - 1] in n.durations
  {
    var o := outcomes[|outcomes| - 1];
    var lines := DurationLines(p, m, outcomes);
    if o in m.durations {
      LastIsCount(p, n, outcomes);
      var h := m.durations[o];
      assert OutcomeLines(p, m, o)
          == BucketLines(p, o, h.counts, BUCKETS, |BUCKETS|) + TotalLines(p, o, h.sum, h.total);
      assert lines[|lines| - 1] == CountLine(o, h.total);
      var q, total :| q in outcomes && q in n.durations && lines[|lines| - 1] == CountLine(q, total);
      CountLinesDiffer(o, h.total, q, total);
    }
  }

  lemma {:induction false} SectionsRead(p: Printers, m: Registry, n: Registry, outcomes: seq<Outcome>, o: Outcome)
    requires Shaped(m) && Shaped(n) && Distinct(outcomes) && o in outcomes
    requires DurationLines(p, m, outcomes) == DurationLines(p, n, outcomes)
    ensures o in m.durations <==> o in n.durations
    ensures o in m.durations ==>
              m.durations[o].counts == n.durations[o].counts && m.durations[o].total == n.durations[o].total
  {
    var front, q := outcomes[..|outcomes| - 1], outcomes[|outcomes| - 1];
    SamePresence(p, m, n, outcomes);
    SamePresence(p, n, m, outcomes);
    assert |OutcomeLines(p, m, q)| == |OutcomeLines(p, n, q)|;
    SplitEnd(DurationLines(p, m, front), OutcomeLines(p, m, q), DurationLines(p, n, front), OutcomeLines(p, n, q));
    if o == q {
      if q in m.durations { HistogramRead(p, q, m.durations[q], n.durations[q]); }
    } else {
      SectionsRead(p, m, n, front, o);
    }
  }

  lemma CountersRead(a: map<Outcome, nat>, b: map<Outcome, nat>, outcomes: seq<Outcome>, i: nat)
    requires i < |outcomes| && CounterLines(a, outcomes) == CounterLines(b, outcomes)
    ensures Counter(a, outcomes[i]) == Counter(b, outcomes[i])
  {
    var o := outcomes[i];
    assert CounterLines(a, outcomes)[i] == CounterLines(b, outcomes)[i];
    SameSuffix(CounterPrefix(o), Decimal(Counter(a, o)), Decimal(Counter(b, o)));
    DecimalInjective(Counter(a, o), Counter(b, o));
  }

  lemma CounterStart(evaluations: map<Outcome, nat>, o: Outcome)
    ensures CounterLine(evaluations, o) != "" && CounterLine(evaluations, o)[0] == 'd'
  {
    assert CounterPrefix(o)[0] == 'd';
  }

  /** The sixth line is a comment exactly when no counter is listed. */
  lemma SixthLine(p: Printers, v: Versions, m: Registry)
    requires Sane(p) && Shaped(m)
    ensures var lines := Lines(p, v, m);
            |lines| > 5 && lines[5] != "" && (lines[5][0] == '#' <==> m.evaluations == map[])
  {
    if m.evaluations == map[] {
      assert Lines(p, v, m)[5] == p.comment(4);
    } else {
      assert Lines(p, v, m)[5] == CounterLine(m.evaluations, Value);
      CounterStart(m.evaluations, Value);
    }
  }

  lemma SameKnown(p: Printers, v: Versions, m: Registry, w: Versions, n: Registry)
    requires Sane(p) && Shaped(m) && Shaped(n) && Lines(p, v, m) == Lines(p, w, n)
    ensures KnownOutcomes(m) == KnownOutcomes(n)
  {
    SixthLine(p, v, m);
    SixthLine(p, w, n);
  }

  lemma PartsEqual(p: Printers, v: Versions, m: Registry, w: Versions, n: Registry)
    requires Sane(p) && Shaped(m) && Shaped(n) && Lines(p, v, m) == Lines(p, w, n)
    ensures KnownOutcomes(m) == KnownOutcomes(n)
    ensures CounterLines(m.evaluations, KnownOutcomes(m)) == CounterLines(n.evaluations, KnownOutcomes(n))
    ensures DurationLines(p, m, KnownOutcomes(m)) == DurationLines(p, n, KnownOutcomes(n))
    ensures TailLines(p, m.providerAt) == TailLines(p, n.providerAt)
  {
    SameKnown(p, v, m, w, n);
    var c, d := CounterLines(m.evaluations, KnownOutcomes(m)), CounterLines(n.evaluations, KnownOutcomes(n));
    var x, y := DurationLines(p, m, KnownOutcomes(m)), DurationLines(p, n, KnownOutcomes(n));
    SplitEnd(HeadLines(p, v) + c + MiddleLines(p) + x, TailLines(p, m.providerAt),
      HeadLines(p, w) + d + MiddleLines(p) + y, TailLines(p, n.providerAt));
    SplitEqual(HeadLines(p, v) + c + MiddleLines(p), x, HeadLines(p, w) + d + MiddleLines(p), y);
    SplitEqual(HeadLines(p, v) + c, MiddleLines(p), HeadLines(p, w) + d, MiddleLines(p));
    SplitEqual(HeadLines(p, v), c, HeadLines(p, w), d);
  }

  lemma TailRead(p: Printers, a: Option<int>, b: Option<int>)
    requires TailLines(p, a) == TailLines(p, b)
    ensures (a.Some? <==> b.Some?) && p.timestamp(a) == p.timestamp(b)
  {
    var x, y := TailLines(p, a), TailLines(p, b);
    assert x[2] == y[2] && x[5] == y[5];
    SameSuffix("ddflagd_provider_ready ", if a.Some? then "1" else "0", if b.Some? then "1" else "0");
    SameSuffix("ddflagd_provider_ready_timestamp_seconds ", p.timestamp(a), p.timestamp(b));
    assert "1"[0] != "0"[0];
  }

  lemma OutcomesComplete(o: Outcome)
    ensures Distinct(OUTCOMES) && o in OUTCOMES
  {
    match o
    case Value => assert OUTCOMES[0] == o;
    case CodeDefault => assert OUTCOMES[1] == o;
    case FlagNotFound => assert OUTCOMES[2] == o;
    case InvalidRequest => assert OUTCOMES[3] == o;
    case NotReady => assert OUTCOMES[4] == o;
    case Timeout => assert OUTCOMES[5] == o;
    case Error => assert OUTCOMES[6] == o;
  }

  lemma LinesRead(p: Printers, v: Versions, m: Registry, w: Versions, n: Registry)
    requires Sane(p) && Shaped(m) && Shaped(n) && Unlines(Lines(p, v, m)) == Unlines(Lines(p, w, n))
    ensures Lines(p, v, m) == Lines(p, w, n)
  {
    LinesOneLine(p, v, m);
    LinesOneLine(p, w, n);
    UnlinesInjective(Lines(p, v, m), Lines(p, w, n));
  }

  lemma CountsRead(p: Printers, m: Registry, n: Registry, o: Outcome)
    requires Shaped(m) && Shaped(n)
    requires CounterLines(m.evaluations, OUTCOMES) == CounterLines(n.evaluations, OUTCOMES)
    requires DurationLines(p, m, OUTCOMES) == DurationLines(p, n, OUTCOMES)
    ensures SameCounts(m, n, o)
  {
    OutcomesComplete(o);
    var i :| 0 <= i < |OUTCOMES| && OUTCOMES[i] == o;
    CountersRead(m.evaluations, n.evaluations, OUTCOMES, i);
    SectionsRead(p, m, n, OUTCOMES, o);
  }

  /** Rendering loses no count: two registries with the same text have the same evaluation counter,
      bucket counters and total for every outcome, are both ready or both not, and print one time of
      readiness. */
  lemma RenderingLosesNothing(p: Printers, v: Versions, m: Registry, w: Versions, n: Registry, o: Outcome)
    requires Sane(p) && Shaped(m) && Shaped(n) && KeysAgree(m) && KeysAgree(n)
    requires Unlines(Lines(p, v, m)) == Unlines(Lines(p, w, n))
    ensures SameCounts(m, n, o)
    ensures (m.providerAt.Some? <==> n.providerAt.Some?) && p.timestamp(m.providerAt) == p.timestamp(n.providerAt)
  {
    LinesRead(p, v, m, w, n);
    PartsEqual(p, v, m, w, n);
    TailRead(p, m.providerAt, n.providerAt);
    if m.evaluations != map[] { CountsRead(p, m, n, o); }
  }

  // ----- what the text says

  /** The labels of the outcomes, in the order they are listed. */
  lemma Labels()
    ensures |OUTCOMES| == 7
    ensures Label(OUTCOMES[0]) == "value" && Label(OUTCOMES[1]) == "code_default"
    ensures Label(OUTCOMES[2]) == "flag_not_found" && Label(OUTCOMES[3]) == "invalid_request"
    ensures Label(OUTCOMES[4]) == "not_ready" && Label(OUTCOMES[5]) == "timeout" && Label(OUTCOMES[6]) == "error"
    ensures Label(NotReady) == "not_ready" && Label(Timeout) == "timeout" && Label(Error) == "error"
    ensures Label(Value) == "value" && Label(CodeDefault) == "code_default"
    ensures Label(FlagNotFound) == "flag_not_found" && Label(InvalidRequest) == "invalid_request"
  {}

  /** One counter line in full. */
  lemma TimeoutLine(evaluations: map<Outcome, nat>)
    ensures CounterLine(evaluations, Timeout)
         == "ddflagd_evaluations_total{outcome=\"timeout\"} " + Decimal(Counter(evaluations, Timeout))
  {
    assert CounterPrefix(Timeout) == "ddflagd_evaluations_total{outcome=\"timeout\"} ";
  }

  lemma Reassociated(a: string, b: string, c: string)
    ensures a + b + c == a + (b + c)
  {}

  /** How a bucket's line and a count's line are put together. */
  lemma HistogramNames(o: Outcome, bound: string, total: nat)
    ensures BucketPrefix(o, bound)
         == "ddflagd_evaluation_duration_seconds" + "_bucket{outcome=\"" + (Label(o) + "\"" + ",le=\"" + bound + "\"} ")
    ensures CountLine(o, total)
         == "ddflagd_evaluation_duration_seconds" + "_count{outcome=\"" + (Label(o) + "\"" + ("} " + Decimal(total)))
  {}

  /** A line that could be the provider's readiness. */
  predicate ReadyLike(line: string) { |line| > 22 && line[0] == 'd' && line[8] == 'p' && line[22] == ' ' }

  predicate NoneReady(lines: seq<string>) { forall i :: 0 <= i < |lines| ==> !ReadyLike(lines[i]) }

  lemma EighthKept(a: string, b: string)
    requires |a| > 8
    ensures |a + b| > 8 && (a + b)[8] == a[8]
  {}

  lemma CounterNotReady(evaluations: map<Outcome, nat>, o: Outcome)
    ensures !ReadyLike(CounterLine(evaluations, o))
  {
    var name := "ddflagd_evaluations_total{outcome=\"";
    EighthKept(name, Label(o));
    EighthKept(name + Label(o), "\"} ");
    EighthKept(CounterPrefix(o), Decimal(Counter(evaluations, o)));
  }

  lemma CountersNotReady(evaluations: map<Outcome, nat>, outcomes: seq<Outcome>)
    ensures NoneReady(CounterLines(evaluations, outcomes))
  {
    var lines := CounterLines(evaluations, outcomes);
    forall i | 0 <= i < |lines| ensures !ReadyLike(lines[i]) {
      CounterNotReady(evaluations, outcomes[i]);
    }
  }

  lemma {:induction false} BucketsNotReady(p: Printers, o: Outcome, counts: seq<nat>, bounds: seq<real>)
    requires |counts| == |bounds|
    ensures NoneReady(BucketLines(p, o, counts, bounds, |bounds|))
  {
    forall i | 0 <= i < |bounds| ensures !ReadyLike(BucketLine(p, o, bounds[i], counts[i])) {
      BucketNotReady(o, p.float(bounds[i]), Decimal(counts[i]));
    }
  }

  lemma BucketNotReady(o: Outcome, bound: string, number: string)
    ensures !ReadyLike(BucketPrefix(o, bound) + number)
  {
    var rest := Label(o) + "\"" + ",le=\"" + bound + "\"} ";
    assert (DURATION + "_bucket{outcome=\"" + rest)[8] == DURATION[8];
    assert (BucketPrefix(o, bound) + number)[8] == BucketPrefix(o, bound)[8] == 'e';
  }

  lemma TotalsNotReady(p: Printers, o: Outcome, sum: real, total: nat)
    ensures NoneReady(TotalLines(p, o, sum, total))
  {
    BucketNotReady(o, "+Inf", Decimal(total));
    assert (DURATION + "_sum{outcome=\"" + Label(o) + "\"} " + p.float(sum))[8] == DURATION[8] == 'e';
    assert CountLine(o, total)[8] == DURATION[8];
  }

  lemma NoneReadyJoined(a: seq<string>, b: seq<string>)
    requires NoneReady(a) && NoneReady(b)
    ensures NoneReady(a + b)
  {}

  lemma {:induction false} DurationsNotReady(p: Printers, m: Registry, outcomes: seq<Outcome>)
    requires Shaped(m)
    ensures NoneReady(DurationLines(p, m, outcomes))
  {
    if outcomes != [] {
      var front, o := outcomes[..|outcomes| - 1], outcomes[|outcomes| - 1];
      DurationsNotReady(p, m, front);
      if o in m.durations {
        var h := m.durations[o];
        BucketsNotReady(p, o, h.counts, BUCKETS);
        TotalsNotReady(p, o, h.sum, h.total);
        NoneReadyJoined(BucketLines(p, o, h.counts, BUCKETS, |BUCKETS|), TotalLines(p, o, h.sum, h.total));
      }
      NoneReadyJoined(DurationLines(p, m, front), OutcomeLines(p, m, o));
    }
  }

  lemma CommentNotReady(p: Printers, i: nat)
    requires Sane(p)
    ensures !ReadyLike(p.comment(i))
  {}

  lemma BuildInfoLine(p: Printers, v: Versions)
    ensures HeadLines(p, v)[2]
         == "ddflagd_build_info{version=" + p.quote(v.version) + ",dd_trace_go_version=" + p.quote(v.ddTraceGo) + "} 1"
    ensures !ReadyLike(HeadLines(p, v)[2])
  {
    var name := "ddflagd_build_info{version=";
    assert HeadLines(p, v)[2][8] == name[8] == 'b';
  }

  lemma FixedNotReady(p: Printers, v: Versions)
    requires Sane(p)
    ensures NoneReady(HeadLines(p, v)) && NoneReady(MiddleLines(p))
  {
    CommentNotReady(p, 0);
    CommentNotReady(p, 1);
    BuildInfoLine(p, v);
    CommentNotReady(p, 2);
    CommentNotReady(p, 3);
    CommentNotReady(p, 4);
    CommentNotReady(p, 5);
  }

  function ReadyLine(ready: bool): (s: string)
    ensures ReadyLike(s)
  {
    if ready then "ddflagd_provider_ready 1" else "ddflagd_provider_ready 0"
  }

  lemma TailReady(p: Printers, providerAt: Option<int>, ready: bool)
    requires Sane(p)
    ensures ReadyLine(ready) in TailLines(p, providerAt) <==> (ready <==> providerAt.Some?)
  {
    var tail := TailLines(p, providerAt);
    CommentNotReady(p, 6);
    CommentNotReady(p, 7);
    CommentNotReady(p, 8);
    CommentNotReady(p, 9);
    ReadyLines(tail[2], providerAt.Some?);
    assert tail[5][22] == '_';
  }

  lemma ReadyLines(line: string, ready: bool)
    requires line == "ddflagd_provider_ready " + if ready then "1" else "0"
    ensures line == ReadyLine(ready) && line != ReadyLine(!ready)
  {
    assert line[23] == if ready then '1' else '0';
  }

  lemma FrontNotReady(p: Printers, v: Versions, m: Registry)
    requires Sane(p) && Shaped(m)
    ensures NoneReady(HeadLines(p, v) + CounterLines(m.evaluations, KnownOutcomes(m)) + MiddleLines(p)
                      + DurationLines(p, m, KnownOutcomes(m)))
  {
    var known := KnownOutcomes(m);
    FixedNotReady(p, v);
    CountersNotReady(m.evaluations, known);
    DurationsNotReady(p, m, known);
    NoneReadyJoined(HeadLines(p, v), CounterLines(m.evaluations, known));
    NoneReadyJoined(HeadLines(p, v) + CounterLines(m.evaluations, known), MiddleLines(p));
    NoneReadyJoined(HeadLines(p, v) + CounterLines(m.evaluations, known) + MiddleLines(p), DurationLines(p, m, known));
  }

  lemma InTail(front: seq<string>, tail: seq<string>, line: string)
    requires NoneReady(front) && ReadyLike(line)
    ensures line in front + tail <==> line in tail
  {}

  /** The text says that the provider is ready, or that it is not, exactly when that is so. */
  lemma ProviderReadyTold(p: Printers, v: Versions, m: Registry)
    requires Sane(p) && Shaped(m)
    ensures "ddflagd_provider_ready 1" in Lines(p, v, m) <==> m.providerAt.Some?
    ensures "ddflagd_provider_ready 0" in Lines(p, v, m) <==> m.providerAt.None?
  {
    var front := HeadLines(p, v) + CounterLines(m.evaluations, KnownOutcomes(m)) + MiddleLines(p)
                 + DurationLines(p, m, KnownOutcomes(m));
    FrontNotReady(p, v, m);
    InTail(front, TailLines(p, m.providerAt), ReadyLine(true));
    InTail(front, TailLines(p, m.providerAt), ReadyLine(false));
    TailReady(p, m.providerAt, true);
    TailReady(p, m.providerAt, false);
  }

  lemma FromTheEnd(front: seq<string>, tail: seq<string>, i: nat)
    requires 0 < i <= |tail|
    ensures (front + tail)[|front + tail| - i] == tail[|tail| - i]
  {}

  /** The text ends with the provider's readiness and its time, each under its two comments. */
  lemma TailTold(p: Printers, v: Versions, m: Registry)
    requires Shaped(m)
    ensures var lines := Lines(p, v, m);
            var n := |lines|;
            && n >= 13
            && lines[n - 6] == p.comment(6) && lines[n - 5] == p.comment(7)
            && lines[n - 4] == ReadyLine(m.providerAt.Some?)
            && lines[n - 3] == p.comment(8) && lines[n - 2] == p.comment(9)
            && lines[n - 1] == "ddflagd_provider_ready_timestamp_seconds " + p.timestamp(m.providerAt)
  {
    var front := HeadLines(p, v) + CounterLines(m.evaluations, KnownOutcomes(m)) + MiddleLines(p)
                 + DurationLines(p, m, KnownOutcomes(m));
    var tail := TailLines(p, m.providerAt);
    FromTheEnd(front, tail, 6);
    FromTheEnd(front, tail, 5);
    FromTheEnd(front, tail, 4);
    FromTheEnd(front, tail, 3);
    FromTheEnd(front, tail, 2);
    FromTheEnd(front, tail, 1);
    ReadyLines(tail[2], m.providerAt.Some?);
  }

  /** It begins with the build info and the heading of the counters; before the first evaluation that is
      all there is besides the heading of the histograms. */
  lemma HeadTold(p: Printers, v: Versions, m: Registry)
    requires Shaped(m)
    ensures var lines := Lines(p, v, m);
            && |lines| >= 13 && (|lines| == 13 <==> m.evaluations == map[])
            && lines[0] == p.comment(0) && lines[1] == p.comment(1) && lines[2] == HeadLines(p, v)[2]
            && lines[3] == p.comment(2) && lines[4] == p.comment(3)
            && lines[5 + |KnownOutcomes(m)|] == p.comment(4) && lines[6 + |KnownOutcomes(m)|] == p.comment(5)
  {
    var head, counters := HeadLines(p, v), CounterLines(m.evaluations, KnownOutcomes(m));
    var rest := DurationLines(p, m, KnownOutcomes(m)) + TailLines(p, m.providerAt);
    assert Lines(p, v, m) == head + (counters + (MiddleLines(p) + rest));
  }

  /** The number a counter line of the outcome ends with. */
  function ReadCounter(line: string, o: Outcome): nat {
    var n := |CounterPrefix(o)|;
    if HasPrefix(line, CounterPrefix(o)) && AllDigits(line[n..]) then NatOf(line[n..]) else 0
  }

  /** The sum of the first `n` counters listed, which follow the five head lines. */
  function ReadSum(lines: seq<string>, n: nat): nat
    requires n <= |OUTCOMES| && 5 + n <= |lines|
  {
    if n == 0 then 0 else ReadSum(lines, n - 1) + ReadCounter(lines[4 + n], OUTCOMES[n - 1])
  }

  /** `lines` lists the counters of all outcomes after the head. */
  ghost predicate ListsCounters(lines: seq<string>, evaluations: map<Outcome, nat>) {
    && |lines| >= 5 + |OUTCOMES|
    && forall i :: 0 <= i < |OUTCOMES| ==> lines[5 + i] == CounterLine(evaluations, OUTCOMES[i])
  }

  lemma CountersListed(p: Printers, v: Versions, m: Registry)
    requires Shaped(m) && m.evaluations != map[]
    ensures ListsCounters(Lines(p, v, m), m.evaluations)
  {
    var head, counters := HeadLines(p, v), CounterLines(m.evaluations, OUTCOMES);
    forall i | 0 <= i < |OUTCOMES| ensures |Lines(p, v, m)| > 5 + i && Lines(p, v, m)[5 + i] == counters[i] {
      assert (head + counters)[5 + i] == counters[i];
    }
  }

  lemma CounterLineRead(evaluations: map<Outcome, nat>, o: Outcome)
    ensures ReadCounter(CounterLine(evaluations, o), o) == Counter(evaluations, o)
  {
    var line, prefix := CounterLine(evaluations, o), CounterPrefix(o);
    assert line[..|prefix|] == prefix && line[|prefix|..] == Decimal(Counter(evaluations, o));
    DecimalRoundTrip(Counter(evaluations, o));
  }

  lemma {:induction false} CounterIsTally(xs: seq<Observation>, o: Outcome)
    requires |xs| < COUNTER_RANGE
    ensures Counter(Replay(xs).evaluations, o) == Tally(xs, o, None)
  {
    ReplayTells(xs, o);
  }

  /** The evaluation counters in the text sum to the number of observations made. */
  lemma {:induction false} RenderedSum(p: Printers, v: Versions, m: Registry, xs: seq<Observation>)
    requires Shaped(m) && m.evaluations == Replay(xs).evaluations && xs != [] && |xs| < COUNTER_RANGE
    ensures |Lines(p, v, m)| >= 5 + |OUTCOMES| && ReadSum(Lines(p, v, m), |OUTCOMES|) == |xs|
  {
    ReplayTells(xs, xs[|xs| - 1].outcome);
    CountersListed(p, v, m);
    ReadSumIsTallySum(Lines(p, v, m), xs, |OUTCOMES|);
    TallySumAll(xs);
  }

  lemma {:induction false} ReadSumIsTallySum(lines: seq<string>, xs: seq<Observation>, n: nat)
    requires |xs| < COUNTER_RANGE && n <= |OUTCOMES| && ListsCounters(lines, Replay(xs).evaluations)
    ensures ReadSum(lines, n) == TallySum(xs, n)
  {
    if n > 0 {
      ReadSumIsTallySum(lines, xs, n - 1);
      assert lines[5 + (n - 1)] == lines[4 + n];
      CounterLineRead(Replay(xs).evaluations, OUTCOMES[n - 1]);
      CounterIsTally(xs, OUTCOMES[n - 1]);
    }
  }

  /** Each histogram in the text is cumulative: its buckets do not decrease, and its +Inf bucket and
      its count are both the outcome's evaluation counter, which no bucket exceeds. */
  lemma {:induction false} RenderedHistogram(p: Printers, m: Registry, xs: seq<Observation>, o: Outcome)
    requires Shaped(m) && m.evaluations == Replay(xs).evaluations && m.durations == Replay(xs).durations
    requires |xs| < COUNTER_RANGE && o in m.durations
    ensures o in m.evaluations
    ensures var lines, n, counts, total := OutcomeLines(p, m, o), |BUCKETS|, m.durations[o].counts, m.evaluations[o];
            && |lines| == n + 3
            && (forall i :: 0 <= i < n ==> lines[i] == BucketLine(p, o, BUCKETS[i], counts[i]))
            && lines[n] == BucketPrefix(o, "+Inf") + Decimal(total)
            && lines[n + 1] == "ddflagd_evaluation_duration_seconds" + "_sum{outcome=\"" + Label(o) + "\"} "
                               + p.float(m.durations[o].sum)
            && lines[n + 2] == CountLine(o, total)
            && (forall i, j :: 0 <= i <= j < n ==> counts[i] <= counts[j] <= total)
  {
    Cumulative(xs, o);
    var h := m.durations[o];
    assert OutcomeLines(p, m, o) == BucketLines(p, o, h.counts, BUCKETS, |BUCKETS|) + TotalLines(p, o, h.sum, h.total);
  }
}
