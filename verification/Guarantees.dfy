/** What holds in every run of the process, whatever the interleaving. */
module Guarantees {
  import opened Wrappers
  import Metrics
  import opened Ofrep
  import opened Request
  import opened Bridge
  import opened Evaluation
  import opened Lifecycle
  import opened Invariants

  // ----- readiness

  /** The lifecycle trace is Starting, then Ready, then ShuttingDown, each possibly skipped; the
      time of readiness is set exactly once at most and never after shutdown began. */
  lemma {:induction false} LifecycleTrace(c: Env, run: seq<Action>, more: seq<Action>)
    requires Exec(c, run + more).Some?
    ensures Exec(c, run).Some?
    ensures var s, t := Exec(c, run).value.life, Exec(c, run + more).value.life;
            && StateRank(s.state) <= StateRank(t.state)
            && (s.readyAt.Some? ==> t.readyAt == s.readyAt)
            && (s.state == ShuttingDown ==> t == s)
            && (t.state == Ready ==> t.readyAt.Some?)
            && (t.state == Starting ==> t.readyAt.None?)
  {
    RunGrows(c, run, more);
    Reachable(c, run + more);
  }

  /** Only the start that moves Starting to Ready writes the time of readiness, and it writes the
      time it took when the provider's initialization returned. */
  lemma {:induction false} ReadyAtWriter(c: Env, run: seq<Action>)
    requires run != [] && Exec(c, run).Some?
    ensures Exec(c, run[..|run| - 1]).Some?
    ensures var s, t := Exec(c, run[..|run| - 1]).value, Exec(c, run).value;
            s.life.readyAt != t.life.readyAt ==>
              && run[|run| - 1] == OfStarter(Lock)
              && s.life.state == Starting && t.life.state == Ready
              && s.starter.Initialized? && t.life.readyAt == Some(s.starter.at)
  {
    LastStep(c, run);
    Reachable(c, run[..|run| - 1]);
    var s, t := Exec(c, run[..|run| - 1]).value, Exec(c, run).value;
    if s.life.readyAt != t.life.readyAt { ReadyAtStep(c, s, run[|run| - 1], t); }
  }

  lemma ReadyAtStep(c: Env, s: Sys, a: Action, t: Sys)
    requires LifeOK(s) && Next(c, s, a, t) && s.life.readyAt != t.life.readyAt
    ensures a == OfStarter(Lock) && s.life.state == Starting && t.life.state == Ready
    ensures s.starter.Initialized? && t.life.readyAt == Some(s.starter.at)
  {
    if a.OfRequest? { RequestFrame(c, s, a.k, a.r); }
  }

  predicate Refused(r: Req) { HasReply(r.phase) && r.phase.reply == Stopped(r.input.key) }

  /** A request is answered "shutting down" exactly when its stopped check saw the flag set. */
  lemma RefusedExactly(c: Env, s: Sys, r: Req)
    requires ReqOK(c, s, r) && HasReply(r.phase)
    ensures Refused(r) <==> r.sawStopped
  {}

  /** Once any request has been refused with "shutting down", no later readiness probe succeeds. */
  lemma {:induction false} RefusedNeverReady(c: Env, run: seq<Action>, more: seq<Action>, k: nat)
    requires Exec(c, run + more).Some?
    requires Exec(c, run).Some? && k < |Exec(c, run).value.reqs| && Refused(Exec(c, run).value.reqs[k])
    ensures Readyz(Exec(c, run + more).value.life).status == 503
  {
    Reachable(c, run);
    Reachable(c, run + more);
    RunGrows(c, run, more);
    RefusedExactly(c, Exec(c, run).value, Exec(c, run).value.reqs[k]);
  }

  // ----- gating

  /** A request whose stopped check runs after StopServing is never evaluated, and refused. */
  lemma {:induction false} NoLateEvaluation(c: Env, run: seq<Action>, k: nat, more: seq<Action>)
    requires Exec(c, run + [OfRequest(k, CheckStopped)] + more).Some?
    requires Exec(c, run).Some? && Exec(c, run).value.stopped
    ensures var t := Exec(c, run + [OfRequest(k, CheckStopped)] + more).value;
            k < |t.reqs| && t.reqs[k].evaluator.Unborn? && Refused(t.reqs[k])
  {
    var s, t := CheckedAt(c, run, k, more);
  }

  /** The state right after a stopped check, and the follow-up state. */
  lemma {:induction false} CheckedAt(c: Env, run: seq<Action>, k: nat, more: seq<Action>) returns (s: Sys, t: Sys)
    requires Exec(c, run + [OfRequest(k, CheckStopped)] + more).Some?
    requires Exec(c, run).Some?
    ensures Exec(c, run + [OfRequest(k, CheckStopped)]) == Some(s)
    ensures Exec(c, run + [OfRequest(k, CheckStopped)] + more) == Some(t)
    ensures k < |s.reqs| <= |t.reqs| && Follows(s.reqs[k], t.reqs[k])
    ensures ReqOK(c, t, t.reqs[k])
    ensures s.reqs[k].sawStopped == Exec(c, run).value.stopped && Exec(c, run).value.life == s.life
    ensures s.reqs[k].evaluator.Unborn?
    ensures if s.reqs[k].sawStopped then s.reqs[k].phase.Answered? else s.reqs[k].phase.Admitted?
  {
    var first := run + [OfRequest(k, CheckStopped)];
    RunGrows(c, first, more);
    Reachable(c, first + more);
    s, t := Exec(c, first).value, Exec(c, first + more).value;
    JustChecked(c, run, k);
  }

  lemma {:induction false} JustChecked(c: Env, run: seq<Action>, k: nat)
    requires Exec(c, run + [OfRequest(k, CheckStopped)]).Some? && Exec(c, run).Some?
    ensures var s, r := Exec(c, run + [OfRequest(k, CheckStopped)]).value, Exec(c, run).value;
            && s.life == r.life && k < |s.reqs| && s.reqs[k].sawStopped == r.stopped && s.reqs[k].evaluator.Unborn?
            && if r.stopped then s.reqs[k].phase.Answered? else s.reqs[k].phase.Admitted?
  {
    var first := run + [OfRequest(k, CheckStopped)];
    assert first[..|first| - 1] == run;
    LastStep(c, first);
    Reachable(c, run);
    assert ReqOK(c, Exec(c, run).value, Exec(c, run).value.reqs[k]);
    RequestFrame(c, Exec(c, run).value, k, CheckStopped);
  }

  /** Between BeginShutdown and StopServing a well-formed request is still evaluated: when it gets a
      reply, the reply is that of an evaluation or of its timeout. */
  lemma {:induction false} DrainStillEvaluates(c: Env, run: seq<Action>, k: nat, more: seq<Action>)
    requires Exec(c, run + [OfRequest(k, CheckStopped)] + more).Some?
    requires Exec(c, run).Some? && !Exec(c, run).value.stopped && Exec(c, run).value.life.state != Starting
    ensures var t := Exec(c, run + [OfRequest(k, CheckStopped)] + more).value;
            k < |t.reqs| && (t.reqs[k].decoded.Success? && HasReply(t.reqs[k].phase) ==>
              !t.reqs[k].evaluator.Unborn? && t.reqs[k].phase.reply == Answer(t.reqs[k].input.key, t.reqs[k].picked))
  {
    var s, t := CheckedAt(c, run, k, more);
    if t.reqs[k].decoded.Success? && HasReply(t.reqs[k].phase) {
      NeverStarting(c, run + [OfRequest(k, CheckStopped)], more, k);
      EvaluatedReply(t.reqs[k]);
    }
  }

  lemma EvaluatedReply(r: Req)
    requires HasReply(r.phase) && ReplyOK(r) && !TurnedAway(r)
    ensures !r.evaluator.Unborn? && r.phase.reply == Answer(r.input.key, r.picked)
  {}

  /** A state check that runs once the state has left Starting sees that. */
  lemma {:induction false} NeverStarting(c: Env, run: seq<Action>, more: seq<Action>, k: nat)
    requires Exec(c, run + more).Some? && Exec(c, run).Some?
    requires k < |Exec(c, run).value.reqs| && Exec(c, run).value.life.state != Starting
    requires Exec(c, run).value.reqs[k].phase.Admitted?
    ensures var t := Exec(c, run + more).value;
            k < |t.reqs| && PastStarting(t.reqs[k])
  {
    if more == [] {
      assert run + more == run;
    } else {
      var whole, front := run + more, run + more[..|more| - 1];
      assert whole[..|whole| - 1] == front;
      LastStep(c, whole);
      NeverStarting(c, run, more[..|more| - 1], k);
      RunGrows(c, run, more[..|more| - 1]);
      StateLeft(c, Exec(c, front).value, whole[|whole| - 1], Exec(c, whole).value, k);
    }
  }

  /** Past the stopped check, and not turned away by the state check if that has run. */
  predicate PastStarting(r: Req) {
    && PhaseRank(r.phase) >= 2 && !r.phase.Dropped?
    && (PhaseRank(r.phase) >= 4 && r.decoded.Success? ==> r.sawState != Starting)
  }

  lemma StateLeft(c: Env, s: Sys, a: Action, t: Sys, k: nat)
    requires Next(c, s, a, t) && k < |s.reqs| && s.life.state != Starting
    requires PastStarting(s.reqs[k])
    ensures k < |t.reqs| && PastStarting(t.reqs[k])
  {
    if a.OfRequest? && a.k == k {
      RequestFrame(c, s, k, a.r);
      PastStep(c, s, s.reqs[k], a.r);
    } else {
      SameRequest(c, s, a, t, k);
    }
  }

  lemma PastStep(c: Env, s: Sys, r: Req, step: ReqStep)
    requires PastStarting(r) && s.life.state != Starting && ReqEnabled(s, r, step)
    ensures PastStarting(StepReq(c, s, r, step))
  {}

  /** No Evaluate call starts while the state is Starting, and one that starts without the provider
      ever having become ready starts during shutdown. */
  lemma {:induction false} EvaluatesOnlyPastStarting(c: Env, run: seq<Action>, k: nat)
    requires Exec(c, run + [OfRequest(k, BeginEvaluate)]).Some?
    ensures Exec(c, run).Some? && Exec(c, run).value.life.state != Starting
    ensures Exec(c, run).value.life.readyAt.None? ==> Exec(c, run).value.life.state == ShuttingDown
  {
    var whole := run + [OfRequest(k, BeginEvaluate)];
    assert whole[..|whole| - 1] == run;
    LastStep(c, whole);
    Reachable(c, run);
    assert ReqOK(c, Exec(c, run).value, Exec(c, run).value.reqs[k]);
  }

  // ----- the flush comes after the drain

  predicate Drained(s: Sys) { PcRank(s.term.pc) >= 5 && DrainError !in s.term.errs }

  /** From the moment the evaluation listener has drained without error, which is before the
      provider's flush begins: no handler is active and none becomes active; every request answered
      from an evaluation had that evaluation finished; an evaluation that is still pending belongs to
      a request already answered with a timeout; and the counters no longer change. */
  lemma {:induction false} FlushAfterDrain(c: Env, run: seq<Action>, more: seq<Action>)
    requires Exec(c, run + more).Some?
    requires Exec(c, run).Some? && Drained(Exec(c, run).value)
    ensures var s, t := Exec(c, run).value, Exec(c, run + more).value;
            && AllQuiet(t.reqs) && t.log == s.log && |t.reqs| == |s.reqs|
            && (forall k :: 0 <= k < |s.reqs| && s.reqs[k].picked.Received? ==>
                  s.reqs[k].evaluator == Sent(s.reqs[k].picked.result))
            && (forall k :: 0 <= k < |t.reqs| && !t.reqs[k].evaluator.Unborn? && !t.reqs[k].evaluator.Sent? ==>
                  t.reqs[k].phase.Finished? && t.reqs[k].phase.reply == Answer(t.reqs[k].input.key, Expired))
  {
    Reachable(c, run);
    Reachable(c, run + more);
    StaysDrained(c, run, more);
    QuietEvaluations(c, Exec(c, run).value);
    QuietEvaluations(c, Exec(c, run + more).value);
  }

  /** With no handler active, what was answered from an evaluation is over, and what is not over was
      answered with a timeout. */
  lemma QuietEvaluations(c: Env, s: Sys)
    requires ReqsOK(c, s) && AllQuiet(s.reqs)
    ensures forall k :: 0 <= k < |s.reqs| && s.reqs[k].picked.Received? ==>
              s.reqs[k].evaluator == Sent(s.reqs[k].picked.result)
    ensures forall k :: 0 <= k < |s.reqs| && !s.reqs[k].evaluator.Unborn? && !s.reqs[k].evaluator.Sent? ==>
              s.reqs[k].phase.Finished? && s.reqs[k].phase.reply == Answer(s.reqs[k].input.key, Expired)
  {
    forall k | 0 <= k < |s.reqs|
      ensures s.reqs[k].picked.Received? ==> s.reqs[k].evaluator == Sent(s.reqs[k].picked.result)
      ensures !s.reqs[k].evaluator.Unborn? && !s.reqs[k].evaluator.Sent? ==>
                s.reqs[k].phase.Finished? && s.reqs[k].phase.reply == Answer(s.reqs[k].input.key, Expired)
    {
      assert ReqOK(c, s, s.reqs[k]) && Quiet(s.reqs[k]);
    }
  }

  lemma {:induction false} StaysDrained(c: Env, run: seq<Action>, more: seq<Action>)
    requires Exec(c, run + more).Some? && Exec(c, run).Some? && Drained(Exec(c, run).value)
    ensures Drained(Exec(c, run + more).value)
    ensures Exec(c, run + more).value.log == Exec(c, run).value.log
    ensures |Exec(c, run + more).value.reqs| == |Exec(c, run).value.reqs|
  {
    if more == [] {
      assert run + more == run;
    } else {
      var whole, front := run + more, run + more[..|more| - 1];
      assert whole[..|whole| - 1] == front;
      LastStep(c, whole);
      StaysDrained(c, run, more[..|more| - 1]);
      Reachable(c, front);
      DrainedStep(c, Exec(c, front).value, whole[|whole| - 1], Exec(c, whole).value);
    }
  }

  lemma DrainedStep(c: Env, s: Sys, a: Action, t: Sys)
    requires LifeOK(s) && DrainOK(s) && Next(c, s, a, t) && Drained(s)
    ensures Drained(t) && t.log == s.log && |t.reqs| == |s.reqs|
  {
    TermGrowsStep(c, s, a, t);
    if a.OfRequest? {
      DrainedRequest(c, s, a.k, a.r);
    } else if a.Connect? {
      NoneConnects(c, s, a);
    } else {
      ElsewhereFrame(c, s, a, t);
    }
  }

  lemma NoneConnects(c: Env, s: Sys, a: Action)
    requires LifeOK(s) && Drained(s) && Enabled(c, s, a)
    ensures !a.Connect?
  {}

  lemma DrainedRequest(c: Env, s: Sys, k: nat, step: ReqStep)
    requires Metrics.Shaped(s.registry) && AllQuiet(s.reqs) && k < |s.reqs| && ReqEnabled(s, s.reqs[k], step)
    ensures StepRequest(c, s, k, step).log == s.log && |StepRequest(c, s, k, step).reqs| == |s.reqs|
  {
    assert Quiet(s.reqs[k]);
    QuietObserves(s, k, step);
    RequestFrame(c, s, k, step);
    UncountedFrame(c, s, k, step);
  }

  lemma QuietObserves(s: Sys, k: nat, step: ReqStep)
    requires k < |s.reqs| && Quiet(s.reqs[k]) && ReqEnabled(s, s.reqs[k], step)
    ensures !step.Observe?
  {}

  // ----- conservation

  /** The sum of the outcome counters over the first `n` outcomes. */
  function CounterSum(m: Metrics.Registry, n: nat): nat
    requires n <= |Metrics.OUTCOMES|
  {
    if n == 0 then 0 else CounterSum(m, n - 1) + Metrics.Counter(m.evaluations, Metrics.OUTCOMES[n - 1])
  }

  lemma {:induction false} CounterSumIsTallySum(s: Sys, n: nat)
    requires CountsOK(s) && |s.log| < Metrics.COUNTER_RANGE && n <= |Metrics.OUTCOMES|
    ensures CounterSum(s.registry, n) == Metrics.TallySum(s.log, n)
  {
    if n > 0 {
      CounterSumIsTallySum(s, n - 1);
      CounterIs(s, Metrics.OUTCOMES[n - 1]);
    }
  }

  lemma CounterIs(s: Sys, o: Metrics.Outcome)
    requires CountsOK(s)
    ensures Metrics.Counter(s.registry.evaluations, o) == Metrics.Wrap(CountedAs(s.reqs, o))
    ensures |s.log| < Metrics.COUNTER_RANGE ==>
              Metrics.Counter(s.registry.evaluations, o) == Metrics.Tally(s.log, o, None)
  {
    Metrics.ReplayTells(s.log, o);
  }

  /** In every reachable state each outcome counter is the number of requests counted with it,
      modulo the counter's range, and below that range the responses written are the sum of the
      counters and the handlers between writing and counting. */
  lemma {:induction false} Conservation(c: Env, run: seq<Action>)
    requires Exec(c, run).Some?
    ensures var s := Exec(c, run).value;
            && (forall o :: Metrics.Counter(s.registry.evaluations, o) == Metrics.Wrap(CountedAs(s.reqs, o)))
            && (|s.log| < Metrics.COUNTER_RANGE ==>
                  WrittenCount(s.reqs) == CounterSum(s.registry, |Metrics.OUTCOMES|) + BetweenCount(s.reqs))
  {
    Reachable(c, run);
    var s := Exec(c, run).value;
    forall o ensures Metrics.Counter(s.registry.evaluations, o) == Metrics.Wrap(CountedAs(s.reqs, o)) {
      CounterIs(s, o);
    }
    if |s.log| < Metrics.COUNTER_RANGE {
      CounterSumIsTallySum(s, |Metrics.OUTCOMES|);
      Metrics.TallySumAll(s.log);
    }
  }

  function HandledCount(reqs: seq<Req>): nat {
    if reqs == [] then 0 else HandledCount(reqs[..|reqs| - 1]) + if reqs[|reqs| - 1].phase.Dropped? then 0 else 1
  }

  /** After a clean drain the counters sum to the number of requests handled. */
  lemma {:induction false} CleanDrainCounts(c: Env, run: seq<Action>)
    requires Exec(c, run).Some? && Drained(Exec(c, run).value)
    requires |Exec(c, run).value.log| < Metrics.COUNTER_RANGE
    ensures CounterSum(Exec(c, run).value.registry, |Metrics.OUTCOMES|) == HandledCount(Exec(c, run).value.reqs)
  {
    Reachable(c, run);
    Conservation(c, run);
    QuietCounts(Exec(c, run).value.reqs);
  }

  lemma {:induction false} QuietCounts(reqs: seq<Req>)
    requires AllQuiet(reqs)
    ensures WrittenCount(reqs) == HandledCount(reqs) && BetweenCount(reqs) == 0
  {
    if reqs != [] {
      assert Quiet(reqs[|reqs| - 1]);
      QuietCounts(reqs[..|reqs| - 1]);
    }
  }

  /** How often an action occurs in a run. */
  function Occurrences(run: seq<Action>, a: Action): nat {
    if run == [] then 0 else Occurrences(run[..|run| - 1], a) + if run[|run| - 1] == a then 1 else 0
  }

  /** Each request is answered at most once and counted at most once: its response has been written,
      and counted, exactly as often as its handler is past writing, and past counting. */
  lemma {:induction false} AnsweredAndCountedOnce(c: Env, run: seq<Action>, k: nat)
    requires Exec(c, run).Some?
    ensures var reqs := Exec(c, run).value.reqs;
            && Occurrences(run, OfRequest(k, Write)) == (if k < |reqs| && WasWritten(reqs[k]) then 1 else 0)
            && Occurrences(run, OfRequest(k, Observe)) == (if k < |reqs| && WasCounted(reqs[k]) then 1 else 0)
  {
    if run != [] {
      LastStep(c, run);
      var front, a := run[..|run| - 1], run[|run| - 1];
      AnsweredAndCountedOnce(c, front, k);
      var s, t := Exec(c, front).value, Exec(c, run).value;
      if k < |s.reqs| {
        if a.OfRequest? && a.k == k {
          RequestFrame(c, s, k, a.r);
          OnceStep(c, s, s.reqs[k], a.r);
        } else {
          SameRequest(c, s, a, t, k);
        }
      } else if k < |t.reqs| {
        NewRequest(c, s, a, t, k);
      }
    }
  }

  lemma OnceStep(c: Env, s: Sys, r: Req, step: ReqStep)
    requires ReqEnabled(s, r, step)
    ensures var t := StepReq(c, s, r, step);
            && (WasWritten(t) <==> WasWritten(r) || step.Write?) && (step.Write? ==> !WasWritten(r))
            && (WasCounted(t) <==> WasCounted(r) || step.Observe?) && (step.Observe? ==> !WasCounted(r))
  {}

  // ----- the channel and the select

  /** Nothing keeps the evaluator or the handler of a request from the step that is due. */
  ghost predicate NoneBlocked(s: Sys, r: Req) {
    && (r.evaluator.Spawned? ==> ReqEnabled(s, r, BeginEvaluate))
    && (r.evaluator.Running? ==> forall e :: ReqEnabled(s, r, EndEvaluate(e)))
    && (r.evaluator.Returned? ==> ReqEnabled(s, r, Send))
    && (r.phase.Selecting? && r.evaluator.Sent? ==> ReqEnabled(s, r, Receive))
    && (r.phase.Selecting? && (s.clock >= r.phase.deadline || r.hungUp) ==> ReqEnabled(s, r, Expire))
  }

  lemma Unblocked(c: Env, s: Sys, r: Req)
    requires ReqOK(c, s, r)
    ensures NoneBlocked(s, r)
  {}

  /** An evaluator that has returned can always complete its one send, whether or not the handler has
      left, and a handler at its deadline can always leave, whatever the evaluator does. */
  lemma {:induction false} NothingBlocks(c: Env, run: seq<Action>, k: nat)
    requires Exec(c, run).Some? && k < |Exec(c, run).value.reqs|
    ensures NoneBlocked(Exec(c, run).value, Exec(c, run).value.reqs[k])
  {
    Reachable(c, run);
    Unblocked(c, Exec(c, run).value, Exec(c, run).value.reqs[k]);
  }

  /** Every reply of every run is the sequential handler's reply to what the handler saw, and meets
      the response contract. */
  lemma {:induction false} EveryReplyMeetsContract(c: Env, run: seq<Action>, k: nat)
    requires Exec(c, run).Some? && k < |Exec(c, run).value.reqs| && HasReply(Exec(c, run).value.reqs[k].phase)
    ensures var r := Exec(c, run).value.reqs[k];
            && Replies(r.sawStopped, r.input, c.limits, r.sawState, r.picked, r.phase.reply)
            && Contract(r.input.key, r.phase.reply)
  {
    Reachable(c, run);
    var r := Exec(c, run).value.reqs[k];
    assert ReqOK(c, Exec(c, run).value, r);
    assert Decodes(r.input, c.limits, r.decoded);
    ReplyContract(r.sawStopped, r.input, c.limits, r.sawState, r.picked, r.phase.reply);
  }

  // ----- agreement between the bridge, the metrics and the last error

  /** The provider-ready metric implies the bridge's time of readiness and equals it, with the
      converse once Start has returned. */
  lemma {:induction false} MetricsAgree(c: Env, run: seq<Action>)
    requires Exec(c, run).Some?
    ensures var s := Exec(c, run).value;
            && (s.registry.providerAt.Some? ==> s.life.readyAt == s.registry.providerAt)
            && (s.starter.Returned? ==> s.life.readyAt == s.registry.providerAt)
  {
    Reachable(c, run);
  }

  /** When no handler is between counting a failure and recording it, an error is reported exactly
      when an error or a timeout was counted or Start recorded a failed initialization. */
  lemma {:induction false} LastErrorExactly(c: Env, run: seq<Action>)
    requires Exec(c, run).Some?
    requires forall k :: 0 <= k < |Exec(c, run).value.reqs| ==> !Exec(c, run).value.reqs[k].phase.Counted?
    ensures var s := Exec(c, run).value;
            Status(s.life, s.registry).lastError.Some?
            <==> || StartRecorded(s.starter)
                 || CountedAs(s.reqs, Metrics.Error) > 0 || CountedAs(s.reqs, Metrics.Timeout) > 0
  {
    Reachable(c, run);
    var s := Exec(c, run).value;
    FailuresCounted(s.reqs);
  }

  lemma {:induction false} FailuresCounted(reqs: seq<Req>)
    requires forall k :: 0 <= k < |reqs| ==> !reqs[k].phase.Counted?
    ensures (exists k :: 0 <= k < |reqs| && FailureConcluded(reqs[k]))
       <==> CountedAs(reqs, Metrics.Error) > 0 || CountedAs(reqs, Metrics.Timeout) > 0
  {
    if reqs != [] {
      var front := reqs[..|reqs| - 1];
      FailuresCounted(front);
      if k :| 0 <= k < |front| && FailureConcluded(front[k]) { assert FailureConcluded(reqs[k]); }
      if k :| 0 <= k < |reqs| && FailureConcluded(reqs[k]) { assert k < |front| ==> FailureConcluded(front[k]); }
      assert FailureConcluded(reqs[|reqs| - 1])
        <==> CountsAs(reqs[|reqs| - 1], Metrics.Error) || CountsAs(reqs[|reqs| - 1], Metrics.Timeout);
    }
  }
}
