/** Concrete runs: what the promises about the termination do not exclude, in every configuration. */
module Witnesses {
  import opened Wrappers
  import opened Ofrep
  import opened Request
  import opened Bridge
  import opened Evaluation
  import opened Config
  import opened Lifecycle
  import opened Invariants
  import opened Termination
  import opened Deadlines

  // ----- building runs

  /** The state `n` ticks later. */
  function Later(s: Sys, n: nat): Sys {
    s.(clock := s.clock + n,
       term := if s.term.pc == StoppingTracer then s.term.(tracing := s.term.tracing + n) else s.term)
  }

  lemma {:induction false} TickFor(c: Env, run: seq<Action>, s: Sys, n: nat, swift: bool)
    returns (longer: seq<Action>, t: Sys)
    requires Exec(c, run) == Some(s) && Paced(c, run, swift)
    requires forall j: nat :: j < n ==> MayTick(c, Later(s, j), swift)
    ensures Exec(c, longer) == Some(t) && Paced(c, longer, swift) && run <= longer
    ensures t == Later(s, n)
  {
    if n == 0 {
      longer, t := run, s;
    } else {
      longer, t := TickFor(c, run, s, n - 1, swift);
      longer, t := Go(c, longer, t, Tick, swift);
    }
  }

  lemma EmptyContextDecodes(limits: Limits) returns (input: Request, decoded: Result<EvaluationContext, Reply>)
    ensures Decodes(input, limits, decoded) && decoded.Success?
  {
    input := Request("flag", true, Context(map[]));
    assert Rejected(map[], limits) == {};
    decoded := Success(Accepted(map[], limits));
  }

  /** A ready process that has accepted one connection. */
  lemma {:induction false} OneAccepted(c: Env, swift: bool) returns (run: seq<Action>, s: Sys)
    ensures Exec(c, run) == Some(s) && Paced(c, run, swift)
    ensures s.cause.None? && s.term == INITIAL.term && s.clock == 0 && !s.stopped && !s.eval.closing
    ensures |s.reqs| == 1 && s.life.state == Ready
    ensures s.reqs[0].decoded.Success? && s.reqs[0] == Arrived(s.reqs[0].input, s.reqs[0].decoded)
  {
    var input, decoded := EmptyContextDecodes(c.limits);
    run, s := [], INITIAL;
    run, s := Go(c, run, s, OfListener(true, Launch), swift);
    run, s := Go(c, run, s, OfListener(true, Bind(true)), swift);
    run, s := Go(c, run, s, OfStarter(InitOk), swift);
    run, s := Go(c, run, s, OfStarter(Lock), swift);
    run, s := Go(c, run, s, Connect(input, decoded), swift);
  }

  /** One step of the first request, told by its record alone. */
  lemma {:induction false} GoRequest(c: Env, run: seq<Action>, s: Sys, step: ReqStep, swift: bool)
    returns (longer: seq<Action>, t: Sys)
    requires Exec(c, run) == Some(s) && Paced(c, run, swift)
    requires |s.reqs| == 1 && ReqEnabled(s, s.reqs[0], step) && !step.Observe?
    ensures Exec(c, longer) == Some(t) && Paced(c, longer, swift) && longer == run + [OfRequest(0, step)]
    ensures t.reqs == [StepReq(c, s, s.reqs[0], step)]
    ensures t == s.(reqs := t.reqs, registry := t.registry, log := t.log)
  {
    longer, t := Go(c, run, s, OfRequest(0, step), swift);
    RequestFrame(c, s, 0, step);
  }

  /** The first request passes its stopped check. */
  lemma {:induction false} Admit(c: Env, run: seq<Action>, s: Sys, swift: bool) returns (longer: seq<Action>, t: Sys)
    requires Exec(c, run) == Some(s) && Paced(c, run, swift)
    requires |s.reqs| == 1 && s.reqs[0].phase.Connected? && !s.stopped
    ensures Exec(c, longer) == Some(t) && Paced(c, longer, swift)
    ensures t.reqs == [s.reqs[0].(phase := Admitted, entered := s.clock, sawStopped := false)]
    ensures t == s.(reqs := t.reqs, registry := t.registry, log := t.log)
  {
    longer, t := GoRequest(c, run, s, Enter, swift);
    longer, t := GoRequest(c, longer, t, CheckStopped, swift);
  }

  /** An admitted request comes to its select. */
  lemma {:induction false} StartSelect(c: Env, run: seq<Action>, s: Sys, swift: bool)
    returns (longer: seq<Action>, t: Sys)
    requires Exec(c, run) == Some(s) && Paced(c, run, swift) && s.life.state != Starting
    requires |s.reqs| == 1 && s.reqs[0].phase.Admitted? && s.reqs[0].decoded.Success?
    ensures Exec(c, longer) == Some(t) && Paced(c, longer, swift)
    ensures |t.reqs| == 1 && t.reqs[0].phase == Selecting(s.clock + c.settings.handlerTimeout)
    ensures t.reqs[0].evaluator.Spawned? && t.reqs[0].channel == s.reqs[0].channel
    ensures t == s.(reqs := t.reqs, registry := t.registry, log := t.log)
  {
    longer, t := GoRequest(c, run, s, Decode, swift);
    longer, t := GoRequest(c, longer, t, CheckState, swift);
    longer, t := GoRequest(c, longer, t, Spawn, swift);
  }

  /** From the end of the context to the end of the drain delay, with no request in its select. */
  lemma {:induction false} DrainDelay(c: Env, run: seq<Action>, s: Sys, swift: bool)
    returns (longer: seq<Action>, t: Sys)
    requires Bounded(c.settings) && Exec(c, run) == Some(s) && Paced(c, run, swift)
    requires s.cause.Some? && s.term.pc == Idle
    requires forall k :: 0 <= k < |s.reqs| ==> !s.reqs[k].phase.Selecting? && (swift ==> Resting(s, s.reqs[k]))
    ensures Exec(c, longer) == Some(t) && Paced(c, longer, swift) && run <= longer
    ensures t == s.(clock := s.clock + c.settings.drainDelay, life := Stopping(s.life),
                    term := s.term.(pc := Draining, began := s.clock))
  {
    longer, t := Go(c, run, s, OfTerm(Begin), swift);
    forall j: nat | j < c.settings.drainDelay ensures MayTick(c, Later(t, j), swift) {
      assert forall k :: 0 <= k < |t.reqs| ==> swift ==> Resting(Later(t, j), t.reqs[k]);
    }
    longer, t := TickFor(c, longer, t, c.settings.drainDelay, swift);
  }

  /** From the end of the drain delay to the wait for the evaluation listener. */
  lemma {:induction false} CloseEvaluation(c: Env, run: seq<Action>, s: Sys, swift: bool)
    returns (longer: seq<Action>, t: Sys)
    requires Exec(c, run) == Some(s) && Paced(c, run, swift)
    requires s.term.pc == Draining && s.clock == s.term.began + c.settings.drainDelay
    ensures Exec(c, longer) == Some(t) && Paced(c, longer, swift) && run <= longer
    ensures t == s.(stopped := true, eval := s.eval.(closing := true),
                    term := s.term.(pc := WaitingEval, deadline := s.clock + c.settings.shutdownTimeout))
  {
    longer, t := Go(c, run, s, OfTerm(StopServing), swift);
    longer, t := Go(c, longer, t, OfTerm(Arm), swift);
    longer, t := Go(c, longer, t, OfTerm(CloseEval), swift);
  }

  // ----- a drain that runs out of time

  /** Admitted before serving stopped, a request is still between two of its statements when the drain
      has run out of time. */
  lemma {:induction false} StillAdmitted(c: Env) returns (run: seq<Action>, s: Sys)
    requires Bounded(c.settings)
    ensures Exec(c, run) == Some(s) && Prompt(c, run)
    ensures |s.reqs| == 1 && s.reqs[0].phase.Admitted? && s.reqs[0].channel.None? && s.reqs[0].decoded.Success?
    ensures s.life.state == ShuttingDown
    ensures s.term.pc == WaitingEval && s.term.errs == [] && s.clock == s.term.deadline
  {
    run, s := AdmittedAtStop(c);
    run, s := CloseEvaluation(c, run, s, false);
    NoneSelects(c, s);
    run, s := TickFor(c, run, s, c.settings.shutdownTimeout, false);
  }

  lemma NoneSelects(c: Env, s: Sys)
    requires |s.reqs| == 1 && !s.reqs[0].phase.Selecting?
    requires s.term.pc == WaitingEval && s.term.deadline == s.clock + c.settings.shutdownTimeout
    ensures forall j: nat :: j < c.settings.shutdownTimeout ==> MayTick(c, Later(s, j), false)
  {}

  lemma {:induction false} AdmittedAtStop(c: Env) returns (run: seq<Action>, s: Sys)
    requires Bounded(c.settings)
    ensures Exec(c, run) == Some(s) && Prompt(c, run)
    ensures |s.reqs| == 1 && s.reqs[0].phase.Admitted? && s.reqs[0].channel.None? && s.reqs[0].decoded.Success?
    ensures s.life.state == ShuttingDown
    ensures s.term.pc == Draining && s.clock == s.term.began + c.settings.drainDelay && s.term.errs == []
  {
    run, s := OneAccepted(c, false);
    run, s := Admit(c, run, s, false);
    run, s := Go(c, run, s, Signal, false);
    run, s := DrainDelay(c, run, s, false);
  }

  /** In every configuration the flush can begin while a request is inside its evaluation, and the
      request is then answered from that evaluation, even in a prompt run. */
  lemma {:induction false} FlushDuringEvaluation(c: Env, e: Evaluated) returns (run: seq<Action>, more: seq<Action>)
    requires Bounded(c.settings)
    ensures Exec(c, run).Some? && Exec(c, run + more).Some? && Prompt(c, run + more)
    ensures var s, t := Exec(c, run).value, Exec(c, run + more).value;
            && s.term.pc == Flushing && s.term.errs == [DrainError]
            && |s.reqs| == 1 == |t.reqs| && s.reqs[0].phase.Selecting? && s.reqs[0].evaluator.Running?
            && t.reqs[0].phase == Answered(Answer(t.reqs[0].input.key, Received(e)))
  {
    var s;
    run, s := FlushBegins(c);
    var longer, t := GoRequest(c, run, s, EndEvaluate(e), false);
    longer, t := GoRequest(c, longer, t, Send, false);
    longer, t := GoRequest(c, longer, t, Receive, false);
    more := [OfRequest(0, EndEvaluate(e)), OfRequest(0, Send), OfRequest(0, Receive)];
    assert longer == run + more;
  }

  lemma {:induction false} FlushBegins(c: Env) returns (run: seq<Action>, s: Sys)
    requires Bounded(c.settings)
    ensures Exec(c, run) == Some(s) && Prompt(c, run)
    ensures s.term.pc == Flushing && s.term.errs == [DrainError]
    ensures |s.reqs| == 1 && s.reqs[0].phase.Selecting? && s.reqs[0].evaluator.Running? && s.reqs[0].channel.None?
  {
    run, s := EvaluatingAtDeadline(c);
    run, s := Go(c, run, s, OfTerm(EvalClosed(true)), false);
    run, s := Go(c, run, s, OfTerm(Flush), false);
  }

  lemma {:induction false} EvaluatingAtDeadline(c: Env) returns (run: seq<Action>, s: Sys)
    requires Bounded(c.settings)
    ensures Exec(c, run) == Some(s) && Prompt(c, run)
    ensures s.term.pc == WaitingEval && s.term.errs == [] && s.clock == s.term.deadline
    ensures |s.reqs| == 1 && s.reqs[0].phase.Selecting? && s.reqs[0].evaluator.Running? && s.reqs[0].channel.None?
  {
    run, s := StillAdmitted(c);
    run, s := StartSelect(c, run, s, false);
    run, s := GoRequest(c, run, s, BeginEvaluate, false);
  }

  /** A handler timeout no shorter than the shutdown timeout can outlast the drain, even in a swift
      run: the evaluation begins just before serving stops. */
  lemma {:induction false} SlowHandler(c: Env) returns (run: seq<Action>, s: Sys)
    requires Bounded(c.settings) && c.settings.handlerTimeout >= c.settings.shutdownTimeout
    ensures Exec(c, run) == Some(s) && Swift(c, run) && s.term.errs == [DrainError]
  {
    run, s := SelectingAtClose(c);
    SelectsThrough(c, s);
    run, s := TickFor(c, run, s, c.settings.shutdownTimeout, true);
    run, s := Go(c, run, s, OfTerm(EvalClosed(true)), true);
  }

  lemma SelectsThrough(c: Env, s: Sys)
    requires c.settings.shutdownTimeout > 0 && |s.reqs| == 1 && s.reqs[0].phase.Selecting?
    requires s.term.pc == WaitingEval && s.term.deadline == s.clock + c.settings.shutdownTimeout
    requires s.reqs[0].phase.deadline >= s.term.deadline
    ensures forall j: nat :: j < c.settings.shutdownTimeout ==> MayTick(c, Later(s, j), true)
  {
    forall j: nat | j < c.settings.shutdownTimeout ensures MayTick(c, Later(s, j), true) {
      assert !Quiet(Later(s, j).reqs[0]);
    }
  }

  lemma {:induction false} SelectingAtClose(c: Env) returns (run: seq<Action>, s: Sys)
    requires Bounded(c.settings)
    ensures Exec(c, run) == Some(s) && Swift(c, run)
    ensures |s.reqs| == 1 && s.reqs[0].phase == Selecting(s.clock + c.settings.handlerTimeout)
    ensures s.term.pc == WaitingEval && s.term.deadline == s.clock + c.settings.shutdownTimeout && s.term.errs == []
  {
    run, s := ConnectedAtStop(c);
    run, s := JustInTime(c, run, s);
    run, s := CloseEvaluation(c, run, s, true);
  }

  /** The drain delay has passed, and one connection has not sent its request yet. */
  lemma {:induction false} ConnectedAtStop(c: Env) returns (run: seq<Action>, s: Sys)
    requires Bounded(c.settings)
    ensures Exec(c, run) == Some(s) && Swift(c, run)
    ensures |s.reqs| == 1 && s.reqs[0].phase.Connected? && s.reqs[0].decoded.Success?
    ensures s.life.state == ShuttingDown && !s.stopped
    ensures s.term.pc == Draining && s.clock == s.term.began + c.settings.drainDelay && s.term.errs == []
  {
    run, s := OneAccepted(c, true);
    run, s := Go(c, run, s, Signal, true);
    run, s := DrainDelay(c, run, s, true);
  }

  lemma {:induction false} JustInTime(c: Env, run: seq<Action>, s: Sys) returns (longer: seq<Action>, t: Sys)
    requires Exec(c, run) == Some(s) && Swift(c, run)
    requires |s.reqs| == 1 && s.reqs[0].phase.Connected? && s.reqs[0].decoded.Success?
    requires s.life.state == ShuttingDown && !s.stopped
    ensures Exec(c, longer) == Some(t) && Swift(c, longer)
    ensures |t.reqs| == 1 && t.reqs[0].phase == Selecting(s.clock + c.settings.handlerTimeout)
    ensures t == s.(reqs := t.reqs, registry := t.registry, log := t.log)
  {
    longer, t := Admit(c, run, s, true);
    longer, t := StartSelect(c, longer, t, true);
  }

  // ----- a tracer that takes its time

  /** A process without requests up to the tracer's stop. */
  lemma {:induction false} TracerStops(c: Env) returns (run: seq<Action>, s: Sys)
    requires Bounded(c.settings)
    ensures Exec(c, run) == Some(s) && Prompt(c, run)
    ensures s.reqs == [] && s.term.pc == StoppingTracer && s.term.tracing == 0 && s.term.began == 0
    ensures s.clock == c.settings.drainDelay && s.term.deadline == s.clock + c.settings.shutdownTimeout
  {
    run, s := Go(c, [], INITIAL, Signal, false);
    run, s := DrainDelay(c, run, s, false);
    run, s := CloseEvaluation(c, run, s, false);
    run, s := CleanFlush(c, run, s);
  }

  /** The second of the three stops has no bound: in every configuration and for every `n` there is a
      prompt run in which the tracer alone takes more than `n`, and the whole termination more than `n`
      beyond the drain delay and the shutdown timeout. */
  lemma {:induction false} SlowTracer(c: Env, n: nat) returns (run: seq<Action>, more: seq<Action>)
    requires Bounded(c.settings)
    ensures var whole := run + [OfTerm(TermStep.TracerStopped)] + more + [OfTerm(AdminClosed(true))];
            && Exec(c, run).Some? && Exec(c, whole).Some? && Prompt(c, whole)
            && Exec(c, run).value.term.tracing > n
            && Exec(c, whole).value.clock - Exec(c, whole).value.term.began
               > c.settings.drainDelay + c.settings.shutdownTimeout + n
  {
    var s;
    run, s := TracerStops(c);
    forall j: nat | j < c.settings.shutdownTimeout + n + 1 ensures MayTick(c, Later(s, j), false) {}
    run, s := TickFor(c, run, s, c.settings.shutdownTimeout + n + 1, false);
    var whole, t := Go(c, run, s, OfTerm(TermStep.TracerStopped), false);
    whole, t := Go(c, whole, t, OfTerm(CloseAdmin), false);
    whole, t := Go(c, whole, t, OfTerm(AdminClosed(true)), false);
    more := [OfTerm(CloseAdmin)];
  }

  // ----- a failed start that is excused

  lemma {:induction false} FailedThenSignalled(c: Env) returns (run: seq<Action>, s: Sys)
    ensures run == [OfStarter(InitFail)] + [Signal]
    ensures Exec(c, run) == Some(s) && Prompt(c, run)
    ensures s == INITIAL.(registry := s.registry, cause := Some(Signalled), starter := Failed)
  {
    run, s := Go(c, [], INITIAL, OfStarter(InitFail), false);
    run, s := Go(c, run, s, Signal, false);
  }

  /** The race: a failed initialization, a signal, and only then the look at the context. */
  lemma {:induction false} ExcusedRace(c: Env) returns (run: seq<Action>, s: Sys)
    ensures run == [OfStarter(InitFail)] + [Signal] + [OfStarter(Consult)]
    ensures Exec(c, run) == Some(s) && Prompt(c, run) && s.starter == Starter.Returned(true, false)
    ensures s == INITIAL.(registry := s.registry, cause := Some(Signalled), starter := s.starter)
  {
    run, s := FailedThenSignalled(c);
    run, s := Go(c, run, s, OfStarter(Consult), false);
  }

  /** Start fails while the context is alive, a signal arrives before its error is examined, and the
      process exits without an error. */
  lemma {:induction false} FailedStartExcused(c: Env) returns (run: seq<Action>)
    requires Bounded(c.settings)
    ensures Exec(c, run).Some? && Exited(Exec(c, run).value) && NothingReported(Exec(c, run).value)
    ensures [OfStarter(InitFail), Signal, OfStarter(Consult)] <= run
  {
    var s;
    run, s := ExcusedRace(c);
    run, s := DrainDelay(c, run, s, false);
    run, s := CloseEvaluation(c, run, s, false);
    run, s := CleanExit(c, run, s);
  }

  lemma {:induction false} CleanExit(c: Env, run: seq<Action>, s: Sys) returns (longer: seq<Action>, t: Sys)
    requires Exec(c, run) == Some(s) && Prompt(c, run) && s.term.pc == WaitingEval && s.reqs == []
    requires s.eval == Server(Unstarted, true) && s.admin.listen.Unstarted?
    requires s.starter == Starter.Returned(true, false) && s.term.errs == []
    ensures Exec(c, longer) == Some(t) && run <= longer && Exited(t) && NothingReported(t)
  {
    longer, t := CleanStops(c, run, s);
    longer, t := Go(c, longer, t, OfListener(true, Launch), false);
    longer, t := Go(c, longer, t, OfListener(false, Launch), false);
  }

  lemma {:induction false} CleanStops(c: Env, run: seq<Action>, s: Sys) returns (longer: seq<Action>, t: Sys)
    requires Exec(c, run) == Some(s) && Prompt(c, run) && s.term.pc == WaitingEval && s.reqs == []
    ensures Exec(c, longer) == Some(t) && Prompt(c, longer) && run <= longer
    ensures t == s.(life := Stopping(s.life), admin := s.admin.(closing := true), term := s.term.(pc := Terminated))
  {
    longer, t := CleanFlush(c, run, s);
    longer, t := Go(c, longer, t, OfTerm(TermStep.TracerStopped), false);
    longer, t := Go(c, longer, t, OfTerm(CloseAdmin), false);
    longer, t := Go(c, longer, t, OfTerm(AdminClosed(false)), false);
  }

  lemma {:induction false} CleanFlush(c: Env, run: seq<Action>, s: Sys) returns (longer: seq<Action>, t: Sys)
    requires Exec(c, run) == Some(s) && Prompt(c, run) && s.term.pc == WaitingEval && s.reqs == []
    ensures Exec(c, longer) == Some(t) && Prompt(c, longer) && run <= longer
    ensures t == s.(life := Stopping(s.life), term := s.term.(pc := StoppingTracer))
  {
    longer, t := Go(c, run, s, OfTerm(EvalClosed(false)), false);
    longer, t := Go(c, longer, t, OfTerm(Flush), false);
    longer, t := Go(c, longer, t, OfTerm(Flushed(false)), false);
  }
}
