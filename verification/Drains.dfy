/** When the flush really comes after the evaluations, and when the drain is sure to be clean. */
module Drains {
  import opened Wrappers
  import opened Ofrep
  import opened Bridge
  import opened Evaluation
  import opened Config
  import opened Lifecycle
  import opened Invariants
  import opened Termination
  import opened Deadlines
  import opened Witnesses

  // ----- which requests can still be answered from an evaluation that is not over

  predicate EvaluationOver(e: Evaluator) { e.Returned? || e.Sent? }

  /** Past the stopped check, on the way to an evaluation or inside it. */
  predicate Pending(r: Req) {
    || (r.phase.Admitted? && r.decoded.Success?)
    || r.phase.Parsed?
    || r.phase.Gated?
    || (r.phase.Selecting? && !EvaluationOver(r.evaluator))
  }

  ghost predicate SomePending(s: Sys) { exists k :: 0 <= k < |s.reqs| && Pending(s.reqs[k]) }

  predicate AnsweredFromEvaluation(r: Req) { HasReply(r.phase) && r.picked.Received? }

  /** After `run`, in the continuation `more`, request `k` is answered from an evaluation that was not
      over when the continuation began. */
  ghost predicate AnsweredLate(c: Env, run: seq<Action>, more: seq<Action>, k: nat) {
    && Exec(c, run).Some? && Exec(c, run + more).Some?
    && var s, t := Exec(c, run).value, Exec(c, run + more).value;
       && k < |t.reqs| && AnsweredFromEvaluation(t.reqs[k])
       && (k < |s.reqs| ==> !EvaluationOver(s.reqs[k].evaluator))
  }

  /** Neither answered from an evaluation nor ever to be, once serving has stopped. */
  predicate Cold(r: Req) {
    && r.picked == Expired
    && (r.phase.Connected? || r.phase.Entered? || r.phase.Dropped? || HasReply(r.phase)
        || (r.phase.Admitted? && r.decoded.Failure?))
  }

  lemma ColdOrPending(c: Env, s: Sys, r: Req)
    requires ReqOK(c, s, r) && !EvaluationOver(r.evaluator)
    ensures Cold(r) || Pending(r)
  {}

  lemma ColdStep(c: Env, s: Sys, r: Req, step: ReqStep)
    requires Cold(r) && s.stopped && ReqEnabled(s, r, step)
    ensures Cold(StepReq(c, s, r, step))
  {}

  lemma {:induction false} StaysCold(c: Env, run: seq<Action>, more: seq<Action>, k: nat)
    requires Exec(c, run + more).Some? && Exec(c, run).Some? && Exec(c, run).value.stopped
    requires k < |Exec(c, run).value.reqs| && Cold(Exec(c, run).value.reqs[k])
    ensures k < |Exec(c, run + more).value.reqs| && Cold(Exec(c, run + more).value.reqs[k])
  {
    if more == [] {
      assert run + more == run;
    } else {
      var whole, front := run + more, run + more[..|more| - 1];
      assert whole[..|whole| - 1] == front;
      LastStep(c, whole);
      StaysCold(c, run, more[..|more| - 1], k);
      RunGrows(c, run, more[..|more| - 1]);
      ColdNext(c, Exec(c, front).value, whole[|whole| - 1], Exec(c, whole).value, k);
    }
  }

  lemma ColdNext(c: Env, s: Sys, a: Action, t: Sys, k: nat)
    requires Next(c, s, a, t) && s.stopped && k < |s.reqs| && Cold(s.reqs[k])
    ensures k < |t.reqs| && Cold(t.reqs[k])
  {
    if a.OfRequest? && a.k == k {
      RequestFrame(c, s, k, a.r);
      ColdStep(c, s, s.reqs[k], a.r);
    } else {
      SameRequest(c, s, a, t, k);
    }
  }

  /** Once the evaluation listener is closing no connection is accepted. */
  lemma {:induction false} NoneAccepted(c: Env, run: seq<Action>, more: seq<Action>)
    requires Exec(c, run + more).Some? && Exec(c, run).Some? && Exec(c, run).value.eval.closing
    ensures var s, t := Exec(c, run).value, Exec(c, run + more).value;
            |t.reqs| == |s.reqs| && t.eval.closing
  {
    if more == [] {
      assert run + more == run;
    } else {
      var whole, front := run + more, run + more[..|more| - 1];
      assert whole[..|whole| - 1] == front;
      LastStep(c, whole);
      NoneAccepted(c, run, more[..|more| - 1]);
      SameCount(c, Exec(c, front).value, whole[|whole| - 1], Exec(c, whole).value);
    }
  }

  lemma SameCount(c: Env, s: Sys, a: Action, t: Sys)
    requires Next(c, s, a, t) && s.eval.closing
    ensures |t.reqs| == |s.reqs| && t.eval.closing
  {
    match a
    case OfRequest(k, step) => RequestFrame(c, s, k, step);
    case OfListener(isEval, l) => ListenerFrame(s, isEval, l);
    case OfStarter(step) => StarterFrame(s, step);
    case _ =>
  }

  lemma {:induction false} LateWasPending(c: Env, run: seq<Action>, more: seq<Action>, k: nat)
    requires AnsweredLate(c, run, more, k) && PcRank(Exec(c, run).value.term.pc) >= 5
    ensures k < |Exec(c, run).value.reqs| && Pending(Exec(c, run).value.reqs[k])
  {
    var s := Exec(c, run).value;
    Reachable(c, run);
    NoneAccepted(c, run, more);
    assert ReqOK(c, s, s.reqs[k]);
    ColdOrPending(c, s, s.reqs[k]);
    if Cold(s.reqs[k]) { StaysCold(c, run, more, k); }
  }

  // ----- a pending request can be answered from its evaluation

  /** On the way to an answer from its evaluation. */
  predicate Coming(r: Req) { Pending(r) || r.phase.Selecting? }

  function NextStep(r: Req, e: Evaluated): ReqStep
    requires Coming(r)
  {
    match r.phase
    case Admitted => Decode
    case Parsed => CheckState
    case Gated => Spawn
    case Selecting(_) =>
      match r.evaluator {
        case Spawned => BeginEvaluate
        case Running => EndEvaluate(e)
        case Returned(_) => Send
        case _ => Receive
      }
  }

  function WorkLeft(r: Req): nat { 13 - PhaseRank(r.phase) - EvaluatorRank(r.evaluator) }

  lemma NextStepComes(c: Env, s: Sys, r: Req, e: Evaluated)
    requires ReqOK(c, s, r) && s.life.state != Starting && Coming(r)
    ensures ReqEnabled(s, r, NextStep(r, e))
    ensures var t := StepReq(c, s, r, NextStep(r, e));
            AnsweredFromEvaluation(t) || (Coming(t) && WorkLeft(t) < WorkLeft(r))
  {}

  lemma {:induction false} ComesCloser(c: Env, run: seq<Action>, k: nat, e: Evaluated) returns (a: Action)
    requires Exec(c, run).Some? && Exec(c, run).value.life.state != Starting
    requires k < |Exec(c, run).value.reqs| && Coming(Exec(c, run).value.reqs[k])
    ensures a.OfRequest? && a.k == k && Exec(c, run + [a]).Some?
    ensures var s, t := Exec(c, run).value, Exec(c, run + [a]).value;
            && t.life == s.life && k < |t.reqs|
            && (AnsweredFromEvaluation(t.reqs[k]) || (Coming(t.reqs[k]) && WorkLeft(t.reqs[k]) < WorkLeft(s.reqs[k])))
  {
    Reachable(c, run);
    var s := Exec(c, run).value;
    a := OfRequest(k, NextStep(s.reqs[k], e));
    assert ReqOK(c, s, s.reqs[k]);
    NextStepComes(c, s, s.reqs[k], e);
    Extend(c, run, a);
    RequestFrame(c, s, k, a.r);
  }

  ghost predicate OnlyOf(more: seq<Action>, k: nat) {
    forall i :: 0 <= i < |more| ==> more[i].OfRequest? && more[i].k == k
  }

  /** A pending request takes its own steps, and its evaluator's, until it is answered. */
  lemma {:induction false} ComesToAnswer(c: Env, run: seq<Action>, k: nat, e: Evaluated) returns (more: seq<Action>)
    requires Exec(c, run).Some? && Exec(c, run).value.life.state != Starting
    requires k < |Exec(c, run).value.reqs| && Coming(Exec(c, run).value.reqs[k])
    ensures Exec(c, run + more).Some? && OnlyOf(more, k)
    ensures var t := Exec(c, run + more).value;
            k < |t.reqs| && AnsweredFromEvaluation(t.reqs[k])
    decreases WorkLeft(Exec(c, run).value.reqs[k])
  {
    var a := ComesCloser(c, run, k, e);
    more := [a];
    if !AnsweredFromEvaluation(Exec(c, run + [a]).value.reqs[k]) {
      var rest := ComesToAnswer(c, run + [a], k, e);
      more := Prepend(run, a, rest, k);
    }
  }

  lemma Prepend(run: seq<Action>, a: Action, rest: seq<Action>, k: nat) returns (more: seq<Action>)
    requires OnlyOf([a], k) && OnlyOf(rest, k)
    ensures run + more == run + [a] + rest && OnlyOf(more, k)
  {
    assert [a][0] == a;
    more := [a] + rest;
  }

  /** The flush comes after the evaluations exactly when no handler is past its stopped check and still
      on the way to the end of its evaluation. At every state from the end of the drain on, whether or not
      the drain was clean, some continuation answers a request from an evaluation that was not over at
      that state exactly when such a handler exists. */
  lemma {:induction false} FlushOrderExactly(c: Env, run: seq<Action>)
    requires Exec(c, run).Some? && PcRank(Exec(c, run).value.term.pc) >= 5
    ensures (exists more, k :: AnsweredLate(c, run, more, k)) <==> SomePending(Exec(c, run).value)
  {
    var s := Exec(c, run).value;
    if more, k :| AnsweredLate(c, run, more, k) {
      LateWasPending(c, run, more, k);
    }
    if k :| 0 <= k < |s.reqs| && Pending(s.reqs[k]) {
      PendingCanBeLate(c, run, k);
    }
  }

  lemma {:induction false} PendingCanBeLate(c: Env, run: seq<Action>, k: nat)
    requires Exec(c, run).Some? && PcRank(Exec(c, run).value.term.pc) >= 5
    requires k < |Exec(c, run).value.reqs| && Pending(Exec(c, run).value.reqs[k])
    ensures exists more :: AnsweredLate(c, run, more, k)
  {
    Reachable(c, run);
    var s := Exec(c, run).value;
    assert ReqOK(c, s, s.reqs[k]);
    var e := Evaluated(Details(None, "", "", "", "", map[]), None);
    var more := ComesToAnswer(c, run, k, e);
    assert AnsweredLate(c, run, more, k);
  }

  /** In particular a clean drain puts the flush last. */
  lemma {:induction false} CleanDrainFlushesLast(c: Env, run: seq<Action>)
    requires Exec(c, run).Some? && PcRank(Exec(c, run).value.term.pc) >= 5
    requires DrainError !in Exec(c, run).value.term.errs
    ensures forall more, k :: !AnsweredLate(c, run, more, k)
  {
    Reachable(c, run);
    assert !SomePending(Exec(c, run).value) by {
      NonePending(Exec(c, run).value);
    }
    FlushOrderExactly(c, run);
  }

  lemma NonePending(s: Sys)
    requires AllQuiet(s.reqs)
    ensures !SomePending(s)
  {
    forall k | 0 <= k < |s.reqs| ensures !Pending(s.reqs[k]) {
      assert Quiet(s.reqs[k]);
    }
  }

  // ----- when the drain is sure to be clean

  /** Past the stopped check and not yet in the select. */
  predicate Hurrying(r: Req) { r.phase.Admitted? || r.phase.Parsed? || r.phase.Gated? }

  function ServingEnd(c: Env, s: Sys): int { s.term.began + c.settings.drainDelay }

  /** What a swift run keeps of one request: the deadline of its select is at most one handler timeout
      away, counted from the end of serving once that has come, and it hurries only until then. */
  predicate SelectBounded(c: Env, s: Sys, r: Req) {
    && (r.phase.Selecting? ==> r.phase.deadline <= s.clock + c.settings.handlerTimeout)
    && (s.stopped && r.phase.Selecting? ==> r.phase.deadline <= ServingEnd(c, s) + c.settings.handlerTimeout)
    && (s.stopped && Hurrying(r) ==> s.clock <= ServingEnd(c, s))
  }

  ghost predicate SelectsBounded(c: Env, s: Sys) {
    forall k :: 0 <= k < |s.reqs| ==> SelectBounded(c, s, s.reqs[k])
  }

  /** The drain is not late: there is time left while it waits. */
  predicate DrainPunctual(c: Env, s: Sys) {
    && (s.term.pc == ClosingEval ==> s.clock == ServingEnd(c, s))
    && (s.term.pc == WaitingEval ==> s.clock < s.term.deadline)
    && DrainError !in s.term.errs
  }

  lemma SelectBoundedStep(c: Env, s: Sys, r: Req, step: ReqStep)
    requires SelectBounded(c, s, r) && ReqEnabled(s, r, step)
    ensures SelectBounded(c, s, StepReq(c, s, r, step))
  {}

  lemma SelectsBoundedStep(c: Env, s: Sys, a: Action, t: Sys)
    requires SelectsBounded(c, s) && LifeOK(s) && TermOnTime(c, s) && Next(c, s, a, t)
    requires a.Tick? ==> MayTick(c, s, true)
    ensures SelectsBounded(c, t)
  {
    forall k | 0 <= k < |t.reqs| ensures SelectBounded(c, t, t.reqs[k]) {
      if k >= |s.reqs| {
        NewRequest(c, s, a, t, k);
      } else if a.OfRequest? && a.k == k {
        RequestFrame(c, s, k, a.r);
        SelectBoundedStep(c, s, s.reqs[k], a.r);
      } else {
        SameRequest(c, s, a, t, k);
        SelectBoundedLater(c, s, a, t, s.reqs[k], k);
      }
    }
  }

  lemma SelectBoundedLater(c: Env, s: Sys, a: Action, t: Sys, r: Req, k: nat)
    requires k < |s.reqs| && r == s.reqs[k] && !(a.OfRequest? && a.k == k)
    requires SelectBounded(c, s, r) && LifeOK(s) && TermOnTime(c, s) && Next(c, s, a, t)
    requires a.Tick? ==> MayTick(c, s, true)
    ensures SelectBounded(c, t, r)
  {
    match a
    case OfRequest(j, step) => RequestFrame(c, s, j, step);
    case OfListener(isEval, l) => ListenerFrame(s, isEval, l);
    case OfStarter(step) => StarterFrame(s, step);
    case OfTerm(step) => SelectBoundedTerm(c, s, step, r);
    case Tick => assert Resting(s, s.reqs[k]);
    case _ =>
  }

  lemma SelectBoundedTerm(c: Env, s: Sys, step: TermStep, r: Req)
    requires SelectBounded(c, s, r) && LifeOK(s) && TermOnTime(c, s) && TermEnabled(c, s, step)
    ensures SelectBounded(c, StepTerm(c, s, step), r)
  {}

  lemma PunctualStep(c: Env, s: Sys, a: Action, t: Sys)
    requires Bounded(c.settings) && c.settings.handlerTimeout < c.settings.shutdownTimeout
    requires DrainPunctual(c, s) && SelectsBounded(c, s) && LifeOK(s) && TermOnTime(c, s) && Next(c, s, a, t)
    requires a.Tick? ==> MayTick(c, s, true)
    ensures DrainPunctual(c, t)
  {
    match a
    case OfRequest(j, step) => RequestFrame(c, s, j, step);
    case OfListener(isEval, l) => ListenerFrame(s, isEval, l);
    case OfStarter(step) => StarterFrame(s, step);
    case OfTerm(step) => PunctualTerm(c, s, step);
    case Tick => PunctualTick(c, s);
    case _ =>
  }

  lemma PunctualTerm(c: Env, s: Sys, step: TermStep)
    requires Bounded(c.settings) && DrainPunctual(c, s) && TermOnTime(c, s) && TermEnabled(c, s, step)
    ensures DrainPunctual(c, StepTerm(c, s, step))
  {}

  /** While the drain waits and time passes, some handler is in its select, and its deadline comes before
      the drain's. */
  lemma PunctualTick(c: Env, s: Sys)
    requires c.settings.handlerTimeout < c.settings.shutdownTimeout
    requires DrainPunctual(c, s) && SelectsBounded(c, s) && LifeOK(s) && TermOnTime(c, s) && MayTick(c, s, true)
    ensures DrainPunctual(c, StepTick(s))
  {
    if s.term.pc == WaitingEval {
      var k :| 0 <= k < |s.reqs| && !Quiet(s.reqs[k]);
      assert Resting(s, s.reqs[k]) && SelectBounded(c, s, s.reqs[k]);
    }
  }

  lemma {:induction false} SwiftDrainsCleanly(c: Env, run: seq<Action>)
    requires Bounded(c.settings) && c.settings.handlerTimeout < c.settings.shutdownTimeout
    requires Exec(c, run).Some? && Swift(c, run)
    ensures SelectsBounded(c, Exec(c, run).value) && DrainPunctual(c, Exec(c, run).value)
  {
    if run != [] {
      LastStep(c, run);
      var front, a := run[..|run| - 1], run[|run| - 1];
      SwiftDrainsCleanly(c, front);
      Reachable(c, front);
      PacedLast(c, run, true);
      SwiftIsPrompt(c, front);
      OnTime(c, front);
      SelectsBoundedStep(c, Exec(c, front).value, a, Exec(c, run).value);
      PunctualStep(c, Exec(c, front).value, a, Exec(c, run).value);
    }
  }

  /** The condition an operator can check: when the handlers' own statements take no time, the drain is
      clean in every run exactly when the handler timeout is shorter than the shutdown timeout. */
  lemma {:induction false} DrainsCleanlyExactly(c: Env)
    requires Bounded(c.settings)
    ensures (forall run :: Swift(c, run) && Exec(c, run).Some? ==> DrainError !in Exec(c, run).value.term.errs)
       <==> c.settings.handlerTimeout < c.settings.shutdownTimeout
  {
    if c.settings.handlerTimeout < c.settings.shutdownTimeout {
      forall run | Swift(c, run) && Exec(c, run).Some? ensures DrainError !in Exec(c, run).value.term.errs {
        SwiftDrainsCleanly(c, run);
      }
    } else {
      var run, s := SlowHandler(c);
      assert s.term.errs[0] == DrainError;
    }
  }

  /** So with a handler timeout shorter than the shutdown timeout the flush comes last in every swift run,
      however it goes on. */
  lemma {:induction false} ShortHandlersFlushLast(c: Env, run: seq<Action>)
    requires Bounded(c.settings) && c.settings.handlerTimeout < c.settings.shutdownTimeout
    requires Exec(c, run).Some? && Swift(c, run) && PcRank(Exec(c, run).value.term.pc) >= 5
    ensures forall more, k :: !AnsweredLate(c, run, more, k)
  {
    SwiftDrainsCleanly(c, run);
    CleanDrainFlushesLast(c, run);
  }
}
