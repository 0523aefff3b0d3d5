/** The registry as the daemon keeps it: counters in maps, one histogram cell per outcome whose
    bucket counters are incremented in place. Each method is one critical section of the lock. */
module MetricsRegistry {
  import opened Wrappers
  import opened Metrics

  class HistogramCell {
    const counts: array<nat>
    var sum: real
    var total: nat

    ghost predicate Valid()
      reads this
    {
      counts.Length == |BUCKETS|
    }

    ghost function View(): Histogram
      reads this, counts
    {
      Histogram(counts[..], sum, total)
    }

    constructor ()
      ensures Valid() && fresh(counts) && View() == EmptyHistogram()
    {
      counts := new nat[|BUCKETS|](_ => 0);
      sum, total := 0.0, 0;
    }

    method Observe(seconds: real)
      requires Valid()
      modifies this, counts
      ensures Valid() && View() == Extend(old(View()), seconds)
    {
      sum := sum + seconds;
      total := Wrap(total + 1);
      for i := 0 to |BUCKETS|
        invariant forall k :: 0 <= k < i ==> counts[k] == Bump(old(counts[..]), BUCKETS, seconds)[k]
        invariant forall k :: i <= k < |BUCKETS| ==> counts[k] == old(counts[k])
        invariant sum == old(sum) + seconds && total == Wrap(old(total) + 1)
      {
        if seconds <= BUCKETS[i] {
          counts[i] := Wrap(counts[i] + 1);
        }
      }
      assert counts[..] == Bump(old(counts[..]), BUCKETS, seconds);
    }
  }

  class Registrar {
    var evaluations: map<Outcome, nat>
    var durations: map<Outcome, HistogramCell>
    var providerAt: Option<int>
    var lastError: Option<string>
    ghost var Repr: set<object>

    /** Every histogram is owned, and no two outcomes share a cell or its counters. */
    ghost predicate Valid()
      reads this, Repr
      ensures Valid() ==> this in Repr
    {
      && this in Repr
      && (forall o :: o in durations ==> durations[o] in Repr && durations[o].counts in Repr && durations[o].Valid())
      && (forall o, p :: o in durations && p in durations && o != p ==>
            durations[o] != durations[p] && durations[o].counts != durations[p].counts)
    }

    ghost function View(): (m: Registry)
      requires Valid()
      reads this, Repr
      ensures Shaped(m)
    {
      Registry(evaluations, map o | o in durations :: durations[o].View(), providerAt, lastError)
    }

    constructor ()
      ensures Valid() && fresh(Repr) && View() == EMPTY
    {
      evaluations, durations, providerAt, lastError := map[], map[], None, None;
      Repr := {this};
    }

    method Count(outcome: Outcome)
      requires Valid()
      modifies this`evaluations
      ensures Valid()
      ensures View() == Counted(old(View()), outcome)
    {
      evaluations := evaluations[outcome := Wrap(Counter(evaluations, outcome) + 1)];
      assert View().durations == old(View()).durations;
    }

    method Adopt(outcome: Outcome, cell: HistogramCell)
      requires Valid() && outcome !in durations
      requires cell.Valid() && cell.View() == EmptyHistogram()
      requires cell !in Repr && cell.counts !in Repr
      modifies this
      ensures Valid() && Repr == old(Repr) + {cell, cell.counts}
      ensures durations == old(durations)[outcome := cell]
      ensures View() == Provided(old(View()), outcome)
    {
      ghost var before := View();
      durations := durations[outcome := cell];
      Repr := Repr + {cell, cell.counts};
      assert Valid();
      assert View().durations == before.durations[outcome := EmptyHistogram()];
    }

    /** Allocates the outcome's histogram the first time the outcome is seen. */
    method Provide(outcome: Outcome)
      requires Valid()
      modifies this
      ensures Valid() && fresh(Repr - old(Repr)) && old(Repr) <= Repr
      ensures outcome in durations
      ensures View() == Provided(old(View()), outcome)
    {
      if outcome !in durations {
        var cell := new HistogramCell();
        Adopt(outcome, cell);
      }
    }

    /** Adds one duration to a histogram that exists, touching no other outcome's counters. */
    method AddDuration(outcome: Outcome, seconds: real)
      requires Valid() && outcome in durations
      modifies durations[outcome], durations[outcome].counts
      ensures Valid()
      ensures View() == Timed(old(View()), outcome, seconds)
    {
      durations[outcome].Observe(seconds);
      assert View().durations
          == old(View()).durations[outcome := Extend(old(View()).durations[outcome], seconds)];
    }

    method ObserveEvaluation(outcome: Outcome, seconds: real)
      requires Valid()
      modifies Repr
      ensures Valid() && fresh(Repr - old(Repr))
      ensures View() == Observe(old(View()), Observation(outcome, seconds))
    {
      Count(outcome);
      Provide(outcome);
      AddDuration(outcome, seconds);
    }

    method SetProviderReady(at: int)
      requires Valid()
      modifies this
      ensures Valid() && Repr == old(Repr)
      ensures View() == ReadyAt(old(View()), at)
    {
      providerAt := Some(at);
    }

    method RecordError(message: string)
      requires Valid()
      modifies this
      ensures Valid() && Repr == old(Repr)
      ensures View() == Fail(old(View()), message)
    {
      lastError := Some(message);
    }
  }
}
