/** By when things happen: the assumption that timers are served, and the deadlines that follow. */
module Deadlines {
  import opened Wrappers
  import opened Config
  import opened Lifecycle
  import opened Invariants
  import opened Termination

  // ----- how time passes

  /** The termination sequence has nothing to do now. */
  predicate TermServed(c: Env, s: Sys) {
    match s.term.pc
    case Draining => s.clock < s.term.began + c.settings.drainDelay
    case WaitingEval => s.clock < s.term.deadline
    case Flushing => s.clock < s.term.deadline
    case WaitingAdmin => s.clock < s.term.deadline
    case Idle => true
    case StoppingTracer => true
    case Terminated => true
    case _ => false
  }

  /** No timer is overdue, and the termination sequence is waiting rather than between two steps.
      The provider's shutdown and the operational listener's honour the shared deadline; the
      tracer's stop has none. */
  ghost predicate TimersServed(c: Env, s: Sys) {
    && (forall k :: 0 <= k < |s.reqs| && s.reqs[k].phase.Selecting? ==> s.clock < s.reqs[k].phase.deadline)
    && TermServed(c, s)
  }

  /** No handler is between two of its own statements, no connection without a request holds up a
      closing listener, and the drain is not over. */
  ghost predicate HandlersServed(s: Sys) {
    && (forall k :: 0 <= k < |s.reqs| ==> Resting(s, s.reqs[k]))
    && (s.term.pc == WaitingEval ==> !AllQuiet(s.reqs))
  }

  predicate Resting(s: Sys, r: Req) { Quiet(r) || r.phase.Selecting? || (r.phase.Connected? && !s.eval.closing) }

  ghost predicate MayTick(c: Env, s: Sys, swift: bool) { TimersServed(c, s) && (swift ==> HandlersServed(s)) }

  /** Time passes only while every timer is served and, in a swift run, every handler as well. */
  ghost predicate Paced(c: Env, run: seq<Action>, swift: bool) {
    run == [] ||
    (var front := run[..|run| - 1];
     && Paced(c, front, swift)
     && (Exec(c, front).Some? && run[|run| - 1].Tick? ==> MayTick(c, Exec(c, front).value, swift)))
  }

  ghost predicate Prompt(c: Env, run: seq<Action>) { Paced(c, run, false) }

  ghost predicate Swift(c: Env, run: seq<Action>) { Paced(c, run, true) }

  lemma {:induction false} SwiftIsPrompt(c: Env, run: seq<Action>)
    requires Swift(c, run)
    ensures Prompt(c, run)
  {
    if run != [] { SwiftIsPrompt(c, run[..|run| - 1]); }
  }

  lemma {:induction false} PacedLast(c: Env, run: seq<Action>, swift: bool)
    requires run != [] && Paced(c, run, swift) && Exec(c, run[..|run| - 1]).Some?
    ensures Paced(c, run[..|run| - 1], swift)
    ensures run[|run| - 1].Tick? ==> MayTick(c, Exec(c, run[..|run| - 1]).value, swift)
  {}

  lemma {:induction false} PacedFront(c: Env, run: seq<Action>, more: seq<Action>, swift: bool)
    requires Paced(c, run + more, swift)
    ensures Paced(c, run, swift)
  {
    if more == [] {
      assert run + more == run;
    } else {
      assert (run + more)[..|run + more| - 1] == run + more[..|more| - 1];
      PacedFront(c, run, more[..|more| - 1], swift);
    }
  }

  // ----- everything happens on time

  /** The budget: one deadline for all three stops. */
  function Budget(c: Env, s: Sys): int { s.term.began + c.settings.drainDelay + c.settings.shutdownTimeout }

  predicate TermOnTime(c: Env, s: Sys) {
    && (PcRank(s.term.pc) < 7 ==> s.term.tracing == 0)
    && s.term.tracing >= 0
    && (PcRank(s.term.pc) >= 3 ==> s.term.deadline == Budget(c, s))
    && match s.term.pc
       case Idle => true
       case Draining => s.clock <= s.term.began + c.settings.drainDelay
       case Arming => s.clock == s.term.began + c.settings.drainDelay
       case Terminated => true
       case _ => s.clock <= s.term.deadline + s.term.tracing
  }

  ghost predicate SelectsOnTime(s: Sys) {
    forall k :: 0 <= k < |s.reqs| && s.reqs[k].phase.Selecting? ==> s.clock <= s.reqs[k].phase.deadline
  }

  lemma TermOnTimeStep(c: Env, s: Sys, a: Action, t: Sys)
    requires c.settings.drainDelay >= 0 && c.settings.shutdownTimeout > 0
    requires TermOnTime(c, s) && Next(c, s, a, t) && (a.Tick? ==> TimersServed(c, s))
    ensures TermOnTime(c, t)
    ensures a.OfTerm? && a.t.AdminClosed? ==> t.clock <= Budget(c, t) + t.term.tracing
  {
    match a
    case OfRequest(k, step) => RequestFrame(c, s, k, step);
    case OfTerm(step) => OnTimeTerm(c, s, step);
    case OfListener(isEval, l) => ListenerFrame(s, isEval, l);
    case OfStarter(step) => StarterFrame(s, step);
    case _ =>
  }

  lemma OnTimeTerm(c: Env, s: Sys, step: TermStep)
    requires c.settings.drainDelay >= 0 && c.settings.shutdownTimeout > 0
    requires TermOnTime(c, s) && TermEnabled(c, s, step)
    ensures TermOnTime(c, StepTerm(c, s, step))
    ensures step.AdminClosed? ==> s.clock <= Budget(c, s) + s.term.tracing
  {}

  lemma SelectsOnTimeStep(c: Env, s: Sys, a: Action, t: Sys)
    requires c.settings.handlerTimeout > 0
    requires SelectsOnTime(s) && Next(c, s, a, t) && (a.Tick? ==> TimersServed(c, s))
    ensures SelectsOnTime(t)
  {
    forall k | 0 <= k < |t.reqs| && t.reqs[k].phase.Selecting? ensures t.clock <= t.reqs[k].phase.deadline {
      if k >= |s.reqs| {
        NewRequest(c, s, a, t, k);
      } else if a.OfRequest? && a.k == k {
        RequestFrame(c, s, k, a.r);
      } else {
        SameRequest(c, s, a, t, k);
        if a.OfRequest? { RequestFrame(c, s, a.k, a.r); }
      }
    }
  }

  lemma {:induction false} OnTime(c: Env, run: seq<Action>)
    requires Bounded(c.settings) && Exec(c, run).Some? && Prompt(c, run)
    ensures TermOnTime(c, Exec(c, run).value) && SelectsOnTime(Exec(c, run).value)
  {
    if run != [] {
      LastStep(c, run);
      PacedLast(c, run, false);
      var front := run[..|run| - 1];
      OnTime(c, front);
      TermOnTimeStep(c, Exec(c, front).value, run[|run| - 1], Exec(c, run).value);
      SelectsOnTimeStep(c, Exec(c, front).value, run[|run| - 1], Exec(c, run).value);
    }
  }

  /** However a prompt run goes on, once the clock is past the deadline of a handler that was waiting
      in its select, that request has its reply, whatever its evaluator did or did not do. */
  lemma {:induction false} HandlersLeaveInTime(c: Env, run: seq<Action>, more: seq<Action>, k: nat)
    requires Bounded(c.settings) && Exec(c, run + more).Some? && Prompt(c, run + more)
    requires Exec(c, run).Some? && k < |Exec(c, run).value.reqs| && Exec(c, run).value.reqs[k].phase.Selecting?
    ensures var s, t := Exec(c, run).value, Exec(c, run + more).value;
            k < |t.reqs| && (t.clock > s.reqs[k].phase.deadline ==> HasReply(t.reqs[k].phase))
  {
    OnTime(c, run + more);
    RunGrows(c, run, more);
    assert Follows(Exec(c, run).value.reqs[k], Exec(c, run + more).value.reqs[k]);
  }

  // ----- serving the timers never stops the clock

  /** One more action of a paced run. */
  lemma {:induction false} Go(c: Env, run: seq<Action>, s: Sys, a: Action, swift: bool)
    returns (longer: seq<Action>, t: Sys)
    requires Exec(c, run) == Some(s) && Enabled(c, s, a)
    requires Paced(c, run, swift) && (a.Tick? ==> MayTick(c, s, swift))
    ensures longer == run + [a] && Exec(c, longer) == Some(t) && t == Apply(c, s, a)
    ensures Paced(c, longer, swift)
  {
    Extend(c, run, a);
    longer, t := run + [a], Apply(c, s, a);
    assert longer[..|longer| - 1] == run;
  }

  /** The actions by which the timers are served and, in a swift run, the handlers: none of an
      evaluator. */
  predicate Serves(a: Action, swift: bool) {
    || a.OfTerm?
    || (a.OfRequest? && a.r.Expire?)
    || (swift && a.OfRequest? && a.r in {Drop, CheckStopped, Decode, CheckState, Spawn, Write, Observe, Conclude})
  }

  ghost predicate AllServe(run: seq<Action>, swift: bool) { forall i :: 0 <= i < |run| ==> Serves(run[i], swift) }

  predicate Overdue(s: Sys, r: Req) { r.phase.Selecting? && s.clock >= r.phase.deadline }

  predicate Served(s: Sys, r: Req, swift: bool) { !Overdue(s, r) && (swift ==> Resting(s, r)) }

  function OwnStep(r: Req): ReqStep
    requires !Quiet(r)
  {
    match r.phase
    case Connected => Drop
    case Entered => CheckStopped
    case Admitted => Decode
    case Parsed => CheckState
    case Gated => Spawn
    case Selecting(_) => Expire
    case Answered(_) => Write
    case Written(_) => Observe
    case Counted(_) => Conclude
  }

  lemma OwnStepServes(c: Env, s: Sys, k: nat, swift: bool)
    requires k < |s.reqs| && !Served(s, s.reqs[k], swift)
    ensures var r := s.reqs[k];
            && !Quiet(r) && ReqEnabled(s, r, OwnStep(r)) && Serves(OfRequest(k, OwnStep(r)), swift)
            && PhaseRank(StepReq(c, s, r, OwnStep(r)).phase) > PhaseRank(r.phase)
  {}

  /** All but one request, the clock, the termination sequence and the listener are as before. */
  predicate Beside(s: Sys, t: Sys, k: nat) {
    && t.clock == s.clock && t.term == s.term && t.eval == s.eval && |t.reqs| == |s.reqs|
    && forall j :: 0 <= j < |s.reqs| && j != k ==> t.reqs[j] == s.reqs[j]
  }

  /** One handler takes its own steps until it waits or has returned. */
  lemma {:induction false} ServeRequest(c: Env, run: seq<Action>, k: nat, swift: bool) returns (more: seq<Action>)
    requires Exec(c, run).Some? && Paced(c, run, swift) && k < |Exec(c, run).value.reqs|
    ensures AllServe(more, swift) && Exec(c, run + more).Some? && Paced(c, run + more, swift)
    ensures var s, t := Exec(c, run).value, Exec(c, run + more).value;
            Beside(s, t, k) && Served(t, t.reqs[k], swift)
    decreases 9 - PhaseRank(Exec(c, run).value.reqs[k].phase)
  {
    var s := Exec(c, run).value;
    if Served(s, s.reqs[k], swift) {
      more := [];
      assert run + more == run;
    } else {
      OwnStepServes(c, s, k, swift);
      var step := OwnStep(s.reqs[k]);
      var longer, t := Go(c, run, s, OfRequest(k, step), swift);
      RequestFrame(c, s, k, step);
      var rest := ServeRequest(c, longer, k, swift);
      more := Joined(run, [OfRequest(k, step)], rest, swift);
    }
  }

  ghost predicate ServedTo(s: Sys, n: nat, swift: bool) {
    n <= |s.reqs| && forall k :: 0 <= k < n ==> Served(s, s.reqs[k], swift)
  }

  lemma {:induction false} ServeRequests(c: Env, run: seq<Action>, n: nat, swift: bool) returns (more: seq<Action>)
    requires Exec(c, run).Some? && Paced(c, run, swift) && n <= |Exec(c, run).value.reqs|
    ensures AllServe(more, swift) && Exec(c, run + more).Some? && Paced(c, run + more, swift)
    ensures var s, t := Exec(c, run).value, Exec(c, run + more).value;
            && t.clock == s.clock && t.term == s.term && t.eval == s.eval && |t.reqs| == |s.reqs|
            && ServedTo(t, n, swift)
  {
    if n == 0 {
      more := [];
      assert run + more == run;
    } else {
      var front := ServeRequests(c, run, n - 1, swift);
      var last := ServeRequest(c, run + front, n - 1, swift);
      ServedBeside(Exec(c, run + front).value, Exec(c, run + front + last).value, n - 1, swift);
      more := Joined(run, front, last, swift);
    }
  }

  lemma ServedBeside(s: Sys, t: Sys, k: nat, swift: bool)
    requires k < |s.reqs| && ServedTo(s, k, swift) && Beside(s, t, k) && Served(t, t.reqs[k], swift)
    ensures ServedTo(t, k + 1, swift)
  {}

  lemma Joined(run: seq<Action>, front: seq<Action>, last: seq<Action>, swift: bool) returns (more: seq<Action>)
    requires AllServe(front, swift) && AllServe(last, swift)
    ensures run + more == run + front + last && AllServe(more, swift)
  {
    more := front + last;
  }

  function Due(s: Sys): TermStep
    requires s.term.pc != Idle && s.term.pc != Terminated
  {
    match s.term.pc
    case Draining => StopServing
    case Arming => Arm
    case ClosingEval => CloseEval
    case WaitingEval => EvalClosed(true)
    case BeforeFlush => Flush
    case Flushing => Flushed(true)
    case StoppingTracer => TermStep.TracerStopped
    case ClosingAdmin => CloseAdmin
    case WaitingAdmin => AdminClosed(true)
  }

  lemma DueStep(c: Env, s: Sys)
    requires !TermServed(c, s)
    ensures s.term.pc != Idle && s.term.pc != Terminated && TermEnabled(c, s, Due(s))
    ensures var t := StepTerm(c, s, Due(s));
            && t.reqs == s.reqs && t.clock == s.clock && PcRank(t.term.pc) > PcRank(s.term.pc)
            && (PcRank(s.term.pc) >= 4 ==> t.eval == s.eval)
  {}

  lemma {:induction false} ServeTerm(c: Env, run: seq<Action>, swift: bool) returns (more: seq<Action>)
    requires Exec(c, run).Some? && Paced(c, run, swift)
    ensures AllServe(more, swift) && Exec(c, run + more).Some? && Paced(c, run + more, swift)
    ensures var s, t := Exec(c, run).value, Exec(c, run + more).value;
            && t.reqs == s.reqs && t.clock == s.clock && TermServed(c, t) && PcRank(t.term.pc) >= PcRank(s.term.pc)
            && (PcRank(s.term.pc) >= 4 ==> t.eval == s.eval)
    decreases 10 - PcRank(Exec(c, run).value.term.pc)
  {
    var s := Exec(c, run).value;
    if TermServed(c, s) {
      more := [];
      assert run + more == run;
    } else {
      DueStep(c, s);
      var longer, t := Go(c, run, s, OfTerm(Due(s)), swift);
      var rest := ServeTerm(c, longer, swift);
      more := Joined(run, [OfTerm(Due(s))], rest, swift);
    }
  }

  lemma ServedMayTick(c: Env, s: Sys, swift: bool)
    requires TermServed(c, s) && ServedTo(s, |s.reqs|, swift) && !(s.term.pc == WaitingEval && AllQuiet(s.reqs))
    ensures MayTick(c, s, swift)
  {
    assert forall k :: 0 <= k < |s.reqs| ==> Served(s, s.reqs[k], swift);
  }

  lemma DrainedMayTick(c: Env, s: Sys, t: Sys, swift: bool)
    requires AllQuiet(s.reqs) && t.reqs == s.reqs && PcRank(t.term.pc) >= 5 && TermServed(c, t)
    ensures MayTick(c, t, swift)
  {
    assert forall k :: 0 <= k < |t.reqs| ==> Quiet(t.reqs[k]);
  }

  lemma {:induction false} EndDrain(c: Env, run: seq<Action>, s: Sys, swift: bool) returns (more: seq<Action>)
    requires Exec(c, run) == Some(s) && Paced(c, run, swift)
    requires s.term.pc == WaitingEval && AllQuiet(s.reqs)
    ensures AllServe(more, swift) && Exec(c, run + more).Some? && Paced(c, run + more, swift)
    ensures MayTick(c, Exec(c, run + more).value, swift)
  {
    var longer, t := Go(c, run, s, OfTerm(EvalClosed(false)), swift);
    var rest := ServeTerm(c, longer, swift);
    more := Joined(run, [OfTerm(EvalClosed(false))], rest, swift);
    DrainedMayTick(c, t, Exec(c, run + more).value, swift);
  }

  /** What is left once every request is served: a drain that is over ends, and time may pass. */
  lemma {:induction false} FinishDrain(c: Env, run: seq<Action>, s: Sys, swift: bool) returns (more: seq<Action>)
    requires Exec(c, run) == Some(s) && Paced(c, run, swift)
    requires TermServed(c, s) && ServedTo(s, |s.reqs|, swift)
    ensures AllServe(more, swift) && Exec(c, run + more).Some? && Paced(c, run + more, swift)
    ensures MayTick(c, Exec(c, run + more).value, swift)
  {
    if s.term.pc == WaitingEval && AllQuiet(s.reqs) {
      more := EndDrain(c, run, s, swift);
    } else {
      more := [];
      assert run + more == run;
      ServedMayTick(c, s, swift);
    }
  }

  /** The assumptions about time never stop the clock. Every prompt run goes on, by expired selects and
      termination steps alone, to one that ends in a tick, and every swift run by steps of handlers and
      of the termination sequence alone, even if no evaluator ever returns. */
  lemma {:induction false} ClockGoesOn(c: Env, run: seq<Action>, swift: bool) returns (more: seq<Action>)
    requires Exec(c, run).Some? && Paced(c, run, swift)
    ensures AllServe(more, swift)
    ensures Exec(c, run + more + [Tick]).Some? && Paced(c, run + more + [Tick], swift)
  {
    var a := ServeTerm(c, run, swift);
    var b := ServeRequests(c, run + a, |Exec(c, run + a).value.reqs|, swift);
    var d := FinishDrain(c, run + a + b, Exec(c, run + a + b).value, swift);
    var ab := Joined(run, a, b, swift);
    more := Joined(run, ab, d, swift);
    var longer, t := Go(c, run + more, Exec(c, run + more).value, Tick, swift);
  }

  // ----- the shutdown budget

  /** From the tracer's stop on, the only thing waited for is the operational listener, until the
      shared deadline. */
  predicate AfterTracer(s: Sys, u: Sys) {
    && s.term.began == u.term.began && s.term.deadline == u.term.deadline
    && PcRank(s.term.pc) >= 8 && s.clock >= u.clock
    && (s.term.pc != Terminated ==> s.clock == u.clock || s.clock <= u.term.deadline)
  }

  lemma AfterTracerStep(c: Env, s: Sys, a: Action, t: Sys, u: Sys)
    requires AfterTracer(s, u) && Next(c, s, a, t) && (a.Tick? ==> TimersServed(c, s))
    ensures AfterTracer(t, u)
    ensures a.OfTerm? ==> t.clock == s.clock && s.term.pc != Terminated
  {
    match a
    case OfRequest(k, step) => RequestFrame(c, s, k, step);
    case OfListener(isEval, l) => ListenerFrame(s, isEval, l);
    case OfStarter(step) => StarterFrame(s, step);
    case _ =>
  }

  lemma {:induction false} AfterTracerAlways(c: Env, run: seq<Action>, more: seq<Action>, u: Sys)
    requires Exec(c, run) == Some(u) && AfterTracer(u, u)
    requires Exec(c, run + more).Some? && Prompt(c, run + more)
    ensures AfterTracer(Exec(c, run + more).value, u)
  {
    if more == [] {
      assert run + more == run;
    } else {
      var whole, front := run + more, run + more[..|more| - 1];
      assert whole[..|whole| - 1] == front && whole[|whole| - 1] == more[|more| - 1];
      LastStep(c, whole);
      PacedLast(c, whole, false);
      AfterTracerAlways(c, run, more[..|more| - 1], u);
      AfterTracerStep(c, Exec(c, front).value, more[|more| - 1], Exec(c, whole).value, u);
    }
  }

  /** In a prompt run the whole termination, from its beginning to the end of its last stop, takes at
      most the drain delay and one shutdown timeout exactly when the tracer's stop, which has no
      deadline of its own, returned by the shared one. */
  lemma {:induction false} ShutdownBudget(c: Env, run: seq<Action>, more: seq<Action>, failed: bool)
    requires Bounded(c.settings)
    requires Exec(c, run + [OfTerm(TermStep.TracerStopped)]).Some?
    requires Exec(c, run + [OfTerm(TermStep.TracerStopped)] + more + [OfTerm(AdminClosed(failed))]).Some?
    requires Prompt(c, run + [OfTerm(TermStep.TracerStopped)] + more + [OfTerm(AdminClosed(failed))])
    ensures var u := Exec(c, run + [OfTerm(TermStep.TracerStopped)]).value;
            var t := Exec(c, run + [OfTerm(TermStep.TracerStopped)] + more + [OfTerm(AdminClosed(failed))]).value;
            && u.term.deadline == Budget(c, u) && t.term.began == u.term.began
            && (t.clock - t.term.began <= c.settings.drainDelay + c.settings.shutdownTimeout
                <==> u.clock <= u.term.deadline)
  {
    var first := run + [OfTerm(TermStep.TracerStopped)];
    assert first[..|first| - 1] == run;
    LastStep(c, first);
    var whole := first + more + [OfTerm(AdminClosed(failed))];
    assert first + (more + [OfTerm(AdminClosed(failed))]) == whole;
    PacedFront(c, first, more + [OfTerm(AdminClosed(failed))], false);
    OnTime(c, first);
    StoppedAfter(c, first, more, failed, Exec(c, first).value);
  }

  lemma {:induction false} StoppedAfter(c: Env, first: seq<Action>, more: seq<Action>, failed: bool, u: Sys)
    requires Exec(c, first) == Some(u) && u.term.pc == ClosingAdmin
    requires Exec(c, first + more + [OfTerm(AdminClosed(failed))]).Some?
    requires Prompt(c, first + more + [OfTerm(AdminClosed(failed))])
    ensures var t := Exec(c, first + more + [OfTerm(AdminClosed(failed))]).value;
            && t.term.began == u.term.began && u.clock <= t.clock
            && (t.clock == u.clock || t.clock <= u.term.deadline)
  {
    var middle, last := first + more, OfTerm(AdminClosed(failed));
    var whole := middle + [last];
    assert whole[..|whole| - 1] == middle;
    LastStep(c, whole);
    PacedLast(c, whole, false);
    AfterTracerAlways(c, first, more, u);
    AfterTracerStep(c, Exec(c, middle).value, last, Exec(c, whole).value, u);
  }
}
