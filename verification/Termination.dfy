/** How the process ends: its exit error, that it gets there, and in which order. */
module Termination {
  import opened Wrappers
  import Metrics
  import opened Lifecycle
  import opened Invariants

  // ----- the exit error

  /** Wait returns: the cleanup and every task have finished. */
  predicate Exited(s: Sys) {
    s.term.pc == Terminated && s.eval.listen.Closed? && s.admin.listen.Closed? && s.starter.Returned?
  }

  /** Neither a listener nor the termination sequence has reported an error so far. */
  predicate OthersFine(s: Sys) {
    && (s.eval.listen.Closed? ==> !s.eval.listen.failed)
    && (s.admin.listen.Closed? ==> !s.admin.listen.failed)
    && s.term.errs == []
  }

  /** Nothing reported so far is an error. */
  predicate NothingReported(s: Sys) { OthersFine(s) && (s.starter.Returned? ==> !s.starter.failed) }

  /** A listener that fails, a stop that fails. */
  predicate Fails(a: Action) {
    match a
    case OfListener(_, Bind(ok)) => !ok
    case OfListener(_, Stop(failed)) => failed
    case OfTerm(EvalClosed(failed)) => failed
    case OfTerm(Flushed(failed)) => failed
    case OfTerm(AdminClosed(failed)) => failed
    case _ => false
  }

  lemma ReportStep(c: Env, s: Sys, a: Action, t: Sys)
    requires Next(c, s, a, t)
    ensures OthersFine(t) <==> OthersFine(s) && !Fails(a)
  {
    match a
    case OfRequest(k, step) => RequestFrame(c, s, k, step);
    case OfTerm(step) => ReportTerm(c, s, step);
    case OfListener(isEval, l) => ReportListener(s, isEval, l);
    case OfStarter(step) => ReportStarter(s, step);
    case _ =>
  }

  lemma ReportTerm(c: Env, s: Sys, step: TermStep)
    requires TermEnabled(c, s, step)
    ensures OthersFine(StepTerm(c, s, step)) <==> OthersFine(s) && !Fails(OfTerm(step))
  {}

  lemma ReportListener(s: Sys, isEval: bool, l: ListenStep)
    requires ListenEnabled(ServerOf(s, isEval), l)
    ensures OthersFine(StepServer(s, isEval, l)) <==> OthersFine(s) && !Fails(OfListener(isEval, l))
  {}

  lemma ReportStarter(s: Sys, step: StartStep)
    requires StartEnabled(s, step)
    ensures OthersFine(StepStart(s, step)) <==> OthersFine(s)
  {}

  lemma {:induction false} OthersExactly(c: Env, run: seq<Action>)
    requires Exec(c, run).Some?
    ensures OthersFine(Exec(c, run).value) <==> forall i :: 0 <= i < |run| ==> !Fails(run[i])
  {
    if run != [] {
      LastStep(c, run);
      var front, a := run[..|run| - 1], run[|run| - 1];
      OthersExactly(c, front);
      ReportStep(c, Exec(c, front).value, a, Exec(c, run).value);
      assert forall i :: 0 <= i < |front| ==> front[i] == run[i];
    }
  }

  /** Start's error was examined at position `i` of the run, when the context had already ended. */
  ghost predicate ExaminedEnded(c: Env, run: seq<Action>, i: nat) {
    && i < |run| && run[i] == OfStarter(Consult)
    && Exec(c, run[..i]).Some? && Exec(c, run[..i]).value.cause.Some?
  }

  ghost predicate Excused(c: Env, run: seq<Action>) { exists i :: ExaminedEnded(c, run, i) }

  lemma {:induction false} ExcusedNext(c: Env, run: seq<Action>)
    requires run != [] && Exec(c, run).Some? && Exec(c, run[..|run| - 1]).Some?
    ensures var front, a := run[..|run| - 1], run[|run| - 1];
            Excused(c, run) <==> Excused(c, front) || (a == OfStarter(Consult) && Exec(c, front).value.cause.Some?)
  {
    var front, a := run[..|run| - 1], run[|run| - 1];
    if i: nat :| ExaminedEnded(c, run, i) {
      if i < |front| {
        assert run[..i] == front[..i];
        assert ExaminedEnded(c, front, i);
      } else {
        assert run[..i] == front;
      }
    }
    if i: nat :| ExaminedEnded(c, front, i) {
      assert run[..i] == front[..i];
      assert ExaminedEnded(c, run, i);
    }
    if a == OfStarter(Consult) && Exec(c, front).value.cause.Some? {
      assert ExaminedEnded(c, run, |front|);
    }
  }

  /** What the starter's state says of the run so far: whether its initialization failed, and whether
      that failure was excused. */
  ghost predicate StartTold(st: Starter, initFailed: bool, excused: bool) {
    match st
    case Failed => initFailed && !excused
    case Blaming => initFailed && !excused
    case Returned(recorded, failed) => (recorded <==> initFailed) && (excused <==> recorded && !failed)
    case _ => !initFailed && !excused
  }

  lemma StartTells(c: Env, s: Sys, a: Action, t: Sys, initFailed: bool, excused: bool)
    requires LifeOK(s) && StarterOK(s) && Next(c, s, a, t) && StartTold(s.starter, initFailed, excused)
    ensures StartTold(t.starter, initFailed || a == OfStarter(InitFail),
              excused || (a == OfStarter(Consult) && s.cause.Some?))
  {
    match a
    case OfRequest(k, step) => RequestFrame(c, s, k, step);
    case OfTerm(step) => TermFrame(c, s, step);
    case OfListener(isEval, l) => ListenerFrame(s, isEval, l);
    case OfStarter(step) => StarterTells(s, step, initFailed, excused);
    case _ =>
  }

  lemma StarterTells(s: Sys, step: StartStep, initFailed: bool, excused: bool)
    requires StartEnabled(s, step) && StartTold(s.starter, initFailed, excused)
    ensures StartTold(StepStart(s, step).starter, initFailed || step == InitFail,
              excused || (step == Consult && s.cause.Some?))
  {}

  lemma InNext(run: seq<Action>, a: Action)
    requires run != []
    ensures a in run <==> a in run[..|run| - 1] || run[|run| - 1] == a
  {
    assert run == run[..|run| - 1] + [run[|run| - 1]];
  }

  lemma {:induction false} StartToldAlways(c: Env, run: seq<Action>)
    requires Exec(c, run).Some?
    ensures StartTold(Exec(c, run).value.starter, OfStarter(InitFail) in run, Excused(c, run))
  {
    if run != [] {
      LastStep(c, run);
      var front, a := run[..|run| - 1], run[|run| - 1];
      StartToldAlways(c, front);
      Reachable(c, front);
      ExcusedNext(c, run);
      InNext(run, OfStarter(InitFail));
      StartTells(c, Exec(c, front).value, a, Exec(c, run).value, OfStarter(InitFail) in front, Excused(c, front));
    }
  }

  /** What Wait returns is nil exactly when no listener failed, every step of the termination sequence
      succeeded, and Start either did not fail or had its error examined after the context had ended. */
  lemma {:induction false} ExitError(c: Env, run: seq<Action>)
    requires Exec(c, run).Some? && Exited(Exec(c, run).value)
    ensures NothingReported(Exec(c, run).value)
       <==> (forall i :: 0 <= i < |run| ==> !Fails(run[i])) && (OfStarter(InitFail) !in run || Excused(c, run))
  {
    OthersExactly(c, run);
    StartToldAlways(c, run);
    Reachable(c, run);
  }

  /** A cause other than a signal is an error that was reported. */
  predicate CauseReported(s: Sys) {
    && (s.cause == Some(ListenerFailed) ==> s.eval.listen == Closed(true) || s.admin.listen == Closed(true))
    && (s.cause == Some(StartFailed) ==> s.starter == Starter.Returned(true, true))
  }

  lemma CauseStep(c: Env, s: Sys, a: Action, t: Sys)
    requires CauseReported(s) && Next(c, s, a, t)
    ensures CauseReported(t)
  {
    match a
    case OfRequest(k, step) => RequestFrame(c, s, k, step);
    case OfTerm(step) => TermFrame(c, s, step);
    case OfListener(isEval, l) =>
    case OfStarter(step) =>
    case _ =>
  }

  /** A context ended by a listener or by Start leaves an error behind: from then on what Wait returns
      cannot be nil. */
  lemma {:induction false} CauseIsAnError(c: Env, run: seq<Action>)
    requires Exec(c, run).Some?
    ensures CauseReported(Exec(c, run).value)
    ensures Exec(c, run).value.cause in [Some(ListenerFailed), Some(StartFailed)] ==>
              !NothingReported(Exec(c, run).value)
  {
    if run != [] {
      LastStep(c, run);
      CauseIsAnError(c, run[..|run| - 1]);
      CauseStep(c, Exec(c, run[..|run| - 1]).value, run[|run| - 1], Exec(c, run).value);
    }
  }

  /** A failed start is blamed exactly when the context was still alive when Start's error was
      examined; a signal that arrives after that no longer excuses it. */
  lemma {:induction false} StartBlamed(c: Env, run: seq<Action>, more: seq<Action>)
    requires Exec(c, run + [OfStarter(Consult)] + more).Some? && Exec(c, run).Some?
    ensures var before, after := Exec(c, run).value.cause, Exec(c, run + [OfStarter(Consult)] + more).value.starter;
            if before.Some? then after == Starter.Returned(true, false)
            else after == Blaming || after == Starter.Returned(true, true)
    decreases |more|
  {
    var first := run + [OfStarter(Consult)];
    var whole := first + more;
    LastStep(c, whole);
    if more == [] {
      assert whole == first && whole[..|whole| - 1] == run;
    } else {
      assert whole[..|whole| - 1] == first + more[..|more| - 1];
      StartBlamed(c, run, more[..|more| - 1]);
      StarterStep(c, Exec(c, whole[..|whole| - 1]).value, whole[|whole| - 1], Exec(c, whole).value);
    }
  }

  lemma StarterStep(c: Env, s: Sys, a: Action, t: Sys)
    requires Next(c, s, a, t)
    ensures s.starter.Returned? ==> t.starter == s.starter
    ensures s.starter.Blaming? ==> t.starter == Blaming || t.starter == Starter.Returned(true, true)
  {
    if a.OfRequest? { RequestFrame(c, s, a.k, a.r); }
  }

  // ----- the order of the termination sequence

  function StepIndex(t: TermStep): nat {
    match t
    case Begin => 0
    case StopServing => 1
    case Arm => 2
    case CloseEval => 3
    case EvalClosed(_) => 4
    case Flush => 5
    case Flushed(_) => 6
    case TracerStopped => 7
    case CloseAdmin => 8
    case AdminClosed(_) => 9
  }

  function TermSteps(run: seq<Action>): seq<TermStep> {
    if run == [] then []
    else TermSteps(run[..|run| - 1]) + if run[|run| - 1].OfTerm? then [run[|run| - 1].t] else []
  }

  lemma PcAdvances(c: Env, s: Sys, a: Action, t: Sys)
    requires Next(c, s, a, t)
    ensures a.OfTerm? ==> StepIndex(a.t) == PcRank(s.term.pc) && PcRank(t.term.pc) == PcRank(s.term.pc) + 1
    ensures !a.OfTerm? ==> t.term.pc == s.term.pc
  {
    if a.OfRequest? { RequestFrame(c, s, a.k, a.r); }
  }

  /** Only a termination step touches the sequence's own state, but for the tracer's clock. */
  lemma PcFrame(c: Env, s: Sys, a: Action, t: Sys)
    requires Next(c, s, a, t) && !a.OfTerm?
    ensures t.term == s.term.(tracing := t.term.tracing)
  {
    match a
    case OfRequest(k, step) => RequestFrame(c, s, k, step);
    case OfListener(isEval, l) => ListenerFrame(s, isEval, l);
    case OfStarter(step) => StarterFrame(s, step);
    case _ =>
  }

  /** In every run the termination steps taken so far are an initial part of the fixed sequence, each
      once and in order, whatever failed before. */
  lemma {:induction false} StopsInOrder(c: Env, run: seq<Action>)
    requires Exec(c, run).Some?
    ensures var steps := TermSteps(run);
            && |steps| == PcRank(Exec(c, run).value.term.pc)
            && forall i :: 0 <= i < |steps| ==> StepIndex(steps[i]) == i
  {
    if run != [] {
      LastStep(c, run);
      StopsInOrder(c, run[..|run| - 1]);
      PcAdvances(c, Exec(c, run[..|run| - 1]).value, run[|run| - 1], Exec(c, run).value);
    }
  }

  // ----- the process gets to its end

  function ListenLeft(v: Server): nat {
    match v.listen
    case Unstarted => 3
    case Binding => 2
    case Serving => 1
    case Closed(_) => 0
  }

  function StarterLeft(st: Starter): nat {
    match st
    case Waiting => 3
    case Failed => 2
    case Initialized(_) => 2
    case Blaming => 1
    case Announcing(_) => 1
    case Returned(_, _) => 0
  }

  function Max0(n: int): nat { if n < 0 then 0 else n }

  /** The longest the termination sequence can still spend waiting. */
  function TimeLeft(c: Env, s: Sys): nat {
    var drain, budget := Max0(c.settings.drainDelay), Max0(c.settings.shutdownTimeout);
    match s.term.pc
    case Idle => drain + budget
    case Draining => Max0(s.term.began + c.settings.drainDelay - s.clock) + budget
    case Arming => budget
    case ClosingEval => Max0(s.term.deadline - s.clock)
    case WaitingEval => Max0(s.term.deadline - s.clock)
    case _ => 0
  }

  function Measure(c: Env, s: Sys): nat {
    ListenLeft(s.eval) + ListenLeft(s.admin) + StarterLeft(s.starter) + (10 - PcRank(s.term.pc)) + TimeLeft(c, s)
  }

  lemma TermMeasure(c: Env, s: Sys, t: TermStep)
    requires TermEnabled(c, s, t)
    ensures Measure(c, StepTerm(c, s, t)) < Measure(c, s)
  {}

  lemma StarterMeasure(c: Env, s: Sys, step: StartStep)
    requires StartEnabled(s, step)
    ensures Measure(c, StepStart(s, step)) < Measure(c, s)
  {}

  lemma ListenMeasure(c: Env, s: Sys, isEval: bool, l: ListenStep)
    requires ListenEnabled(ServerOf(s, isEval), l)
    ensures Measure(c, StepServer(s, isEval, l)) < Measure(c, s)
  {}

  /** Time only shortens what is left, and does shorten it while the sequence waits. */
  lemma TickMeasure(c: Env, s: Sys)
    ensures Measure(c, StepTick(s)) <= Measure(c, s)
    ensures Waits(c, s) ==> Measure(c, StepTick(s)) < Measure(c, s)
  {}

  /** No step of any actor increases what is left. */
  /** The termination sequence waits for a time to come. */
  predicate Waits(c: Env, s: Sys) {
    || (s.term.pc == Draining && s.clock < s.term.began + c.settings.drainDelay)
    || (s.term.pc == WaitingEval && s.clock < s.term.deadline)
  }

  /** Steps that bring the exit closer: those of the starter, the listeners and the termination
      sequence, and the time the sequence waits for. */
  predicate Advances(c: Env, s: Sys, a: Action) {
    a.OfStarter? || a.OfListener? || a.OfTerm? || (a.Tick? && Waits(c, s))
  }

  /** No step of any actor increases what is left, and each step that advances decreases it. */
  lemma MeasureNeverGrows(c: Env, s: Sys, a: Action, t: Sys)
    requires Next(c, s, a, t)
    ensures Measure(c, t) + (if Advances(c, s, a) then 1 else 0) <= Measure(c, s)
  {
    match a
    case Tick => TickMeasure(c, s);
    case Signal =>
    case Connect(input, decoded) =>
    case OfRequest(k, r) => RequestFrame(c, s, k, r);
    case OfListener(isEval, l) => ListenMeasure(c, s, isEval, l);
    case OfStarter(step) => StarterMeasure(c, s, step);
    case OfTerm(step) => TermMeasure(c, s, step);
  }

  lemma MeasureZero(c: Env, s: Sys)
    ensures Measure(c, s) == 0 <==> Exited(s)
  {}

  /** The step that makes progress once the context has ended. */
  function Helpful(c: Env, s: Sys): Action {
    match s.starter
    case Waiting => OfStarter(InitFail)
    case Failed => OfStarter(Consult)
    case Blaming => OfStarter(Blame)
    case Initialized(_) => OfStarter(Lock)
    case Announcing(_) => OfStarter(Announce)
    case Returned(_, _) =>
      if s.term.pc != Terminated then HelpfulStop(c, s)
      else if s.eval.listen.Closed? then OfListener(false, Closing(s.admin))
      else OfListener(true, Closing(s.eval))
  }

  function HelpfulStop(c: Env, s: Sys): Action
    requires s.term.pc != Terminated
  {
    match s.term.pc
    case Idle => OfTerm(Begin)
    case Draining => if s.clock >= s.term.began + c.settings.drainDelay then OfTerm(StopServing) else Tick
    case Arming => OfTerm(Arm)
    case ClosingEval => OfTerm(CloseEval)
    case WaitingEval => if s.clock >= s.term.deadline then OfTerm(EvalClosed(true)) else Tick
    case BeforeFlush => OfTerm(Flush)
    case Flushing => OfTerm(Flushed(false))
    case StoppingTracer => OfTerm(TermStep.TracerStopped)
    case ClosingAdmin => OfTerm(CloseAdmin)
    case WaitingAdmin => OfTerm(AdminClosed(false))
  }

  function Closing(v: Server): ListenStep {
    match v.listen
    case Unstarted => Launch
    case Binding => Bind(true)
    case _ => Stop(false)
  }

  lemma StopProgress(c: Env, s: Sys)
    requires LifeOK(s) && Metrics.Shaped(s.registry) && s.cause.Some? && s.term.pc != Terminated
    ensures Enabled(c, s, HelpfulStop(c, s)) && Advances(c, s, HelpfulStop(c, s))
  {}

  /** Once the context has ended and until the process exits, some step is enabled that brings the
      exit closer, whatever the requests do. */
  lemma Progress(c: Env, s: Sys)
    requires LifeOK(s) && Metrics.Shaped(s.registry) && s.cause.Some? && !Exited(s)
    ensures Enabled(c, s, Helpful(c, s)) && Advances(c, s, Helpful(c, s))
  {
    if s.starter.Returned? && s.term.pc != Terminated { StopProgress(c, s); }
  }

  /** How many steps of `more`, taken after `run`, advance. */
  ghost function Advanced(c: Env, run: seq<Action>, more: seq<Action>): nat {
    if more == [] then 0
    else
      var front := more[..|more| - 1];
      Advanced(c, run, front)
      + if Exec(c, run + front).Some? && Advances(c, Exec(c, run + front).value, more[|more| - 1]) then 1 else 0
  }

  lemma {:induction false} AdvancesBounded(c: Env, run: seq<Action>, more: seq<Action>)
    requires Exec(c, run).Some? && Exec(c, run + more).Some?
    ensures Measure(c, Exec(c, run + more).value) + Advanced(c, run, more) <= Measure(c, Exec(c, run).value)
  {
    if more == [] {
      assert run + more == run;
    } else {
      var whole, front := run + more, run + more[..|more| - 1];
      assert whole[..|whole| - 1] == front && whole[|whole| - 1] == more[|more| - 1];
      LastStep(c, whole);
      AdvancesBounded(c, run, more[..|more| - 1]);
      MeasureNeverGrows(c, Exec(c, front).value, more[|more| - 1], Exec(c, whole).value);
    }
  }

  /** Every schedule exits. However a run goes on, at most as many steps that advance can follow as the
      measure says, and after that many the process has exited. Once the context has ended, another one is
      enabled until it has. */
  lemma {:induction false} Terminates(c: Env, run: seq<Action>, more: seq<Action>)
    requires Exec(c, run).Some? && Exec(c, run + more).Some?
    ensures var left, t := Measure(c, Exec(c, run).value), Exec(c, run + more).value;
            && Advanced(c, run, more) <= left
            && (Advanced(c, run, more) == left ==> Exited(t))
            && (t.cause.Some? ==> Exited(t) || (Enabled(c, t, Helpful(c, t)) && Advances(c, t, Helpful(c, t))))
  {
    AdvancesBounded(c, run, more);
    Reachable(c, run + more);
    var t := Exec(c, run + more).value;
    MeasureZero(c, t);
    if t.cause.Some? && !Exited(t) { Progress(c, t); }
  }

  /** A listener that cannot serve stops the process: however the run goes on, its context has ended, the
      termination sequence has begun or can begin, and until the process exits a step is enabled that brings
      the exit closer. */
  lemma {:induction false} FailedListenerStops(c: Env, run: seq<Action>, more: seq<Action>)
    requires Exec(c, run).Some? && Exec(c, run + more).Some?
    requires Exec(c, run).value.eval.listen == Closed(true) || Exec(c, run).value.admin.listen == Closed(true)
    ensures var t := Exec(c, run + more).value;
            && t.cause.Some? && (t.term.pc != Idle || TermEnabled(c, t, Begin))
            && (Exited(t) || (Enabled(c, t, Helpful(c, t)) && Advances(c, t, Helpful(c, t))))
  {
    Reachable(c, run);
    RunGrows(c, run, more);
    Terminates(c, run, more);
  }

  /** In particular some continuation exits, within as many steps as the measure says. */
  lemma {:induction false} ExitReachable(c: Env, run: seq<Action>) returns (more: seq<Action>)
    requires Exec(c, run).Some? && Exec(c, run).value.cause.Some?
    ensures |more| <= Measure(c, Exec(c, run).value)
    ensures Exec(c, run + more).Some? && Exited(Exec(c, run + more).value)
    decreases Measure(c, Exec(c, run).value)
  {
    if Exited(Exec(c, run).value) {
      more := [];
      assert run + more == run;
    } else {
      var a, longer := Helped(c, run);
      var rest := ExitReachable(c, longer);
      more := Prepended(run, a, rest);
    }
  }

  lemma Prepended(run: seq<Action>, a: Action, rest: seq<Action>) returns (more: seq<Action>)
    ensures |more| == |rest| + 1 && run + more == run + [a] + rest
  {
    more := [a] + rest;
  }

  lemma {:induction false} Helped(c: Env, run: seq<Action>) returns (a: Action, longer: seq<Action>)
    requires Exec(c, run).Some? && Exec(c, run).value.cause.Some? && !Exited(Exec(c, run).value)
    ensures longer == run + [a] && Exec(c, longer).Some? && Exec(c, longer).value.cause.Some?
    ensures Measure(c, Exec(c, longer).value) < Measure(c, Exec(c, run).value)
  {
    Reachable(c, run);
    var s := Exec(c, run).value;
    a := Helpful(c, s);
    Progress(c, s);
    Extend(c, run, a);
    longer := run + [a];
    CauseStays(c, s, a);
    MeasureNeverGrows(c, s, a, Apply(c, s, a));
  }

  lemma CauseStays(c: Env, s: Sys, a: Action)
    requires Metrics.Shaped(s.registry) && Enabled(c, s, a) && s.cause.Some?
    ensures Apply(c, s, a).cause.Some?
  {
    if a.OfRequest? { RequestFrame(c, s, a.k, a.r); }
  }

  lemma {:induction false} Extend(c: Env, run: seq<Action>, a: Action)
    requires Exec(c, run).Some? && Enabled(c, Exec(c, run).value, a)
    ensures Exec(c, run + [a]) == Some(Apply(c, Exec(c, run).value, a))
  {
    assert (run + [a])[..|run + [a]| - 1] == run;
  }
}
