/** What every step of the process keeps, and in which direction it moves. */
module Invariants {
  import opened Wrappers
  import Metrics
  import opened Request
  import opened Bridge
  import opened Evaluation
  import opened Lifecycle

  // ----- ranks

  function StateRank(state: State): nat {
    match state
    case Starting => 0
    case Ready => 1
    case ShuttingDown => 2
  }

  function PhaseRank(p: Phase): nat {
    match p
    case Connected => 0
    case Entered => 1
    case Admitted => 2
    case Parsed => 3
    case Gated => 4
    case Selecting(_) => 5
    case Answered(_) => 6
    case Written(_) => 7
    case Counted(_) => 8
    case Finished(_) => 9
    case Dropped => 9
  }

  function EvaluatorRank(e: Evaluator): nat {
    match e
    case Unborn => 0
    case Spawned => 1
    case Running => 2
    case Returned(_) => 3
    case Sent(_) => 4
  }

  function PcRank(pc: Pc): nat {
    match pc
    case Idle => 0
    case Draining => 1
    case Arming => 2
    case ClosingEval => 3
    case WaitingEval => 4
    case BeforeFlush => 5
    case Flushing => 6
    case StoppingTracer => 7
    case ClosingAdmin => 8
    case WaitingAdmin => 9
    case Terminated => 10
  }

  // ----- the invariant of one request

  /** The evaluation was skipped by one of the handler's gates. */
  predicate TurnedAway(r: Req) { r.sawStopped || r.decoded.Failure? || r.sawState == Starting }

  ghost predicate ReqOK(c: Env, s: Sys, r: Req) {
    && Decodes(r.input, c.limits, r.decoded)
    && (r.sawStopped ==> s.stopped)
    && (r.sawState != Starting ==> s.life.state != Starting)
    && (!r.evaluator.Unborn? ==> s.life.state != Starting)
    && (r.channel.Some? ==> r.evaluator == Sent(r.channel.value))
    && (match r.phase
        case Connected => r.evaluator.Unborn?
        case Dropped => r.evaluator.Unborn?
        case Entered => r.evaluator.Unborn?
        case Admitted => r.evaluator.Unborn? && !r.sawStopped
        case Parsed => r.evaluator.Unborn? && !r.sawStopped && r.decoded.Success?
        case Gated => r.evaluator.Unborn? && !TurnedAway(r)
        case Selecting(_) => !r.evaluator.Unborn? && !TurnedAway(r) && (r.evaluator.Sent? ==> r.channel.Some?)
        case _ => ReplyOK(r))
    && (PhaseRank(r.phase) < 4 ==> r.sawState == Starting)
    && (!HasReply(r.phase) ==> r.picked == Expired)
  }

  /** A reply is the sequential handler's reply to what this handler saw, and a reply taken from an
      evaluation is one whose evaluator has sent its result. */
  predicate ReplyOK(r: Req)
    requires HasReply(r.phase)
  {
    && r.phase.reply == Evaluate(r.sawStopped, r.input.key, r.decoded, r.sawState, r.picked)
    && (r.evaluator.Unborn? <==> TurnedAway(r))
    && (r.picked.Received? ==> r.evaluator == Sent(r.picked.result) && r.channel.None?)
  }

  lemma ReqStepOK(c: Env, s: Sys, r: Req, step: ReqStep)
    requires ReqOK(c, s, r) && ReqEnabled(s, r, step)
    ensures ReqOK(c, s, StepReq(c, s, r, step))
  {}

  lemma ReqOKLater(c: Env, s: Sys, t: Sys, r: Req)
    requires ReqOK(c, s, r) && (s.stopped ==> t.stopped) && (s.life.state != Starting ==> t.life.state != Starting)
    ensures ReqOK(c, t, r)
  {}

  ghost predicate ReqsOK(c: Env, s: Sys) { forall k :: 0 <= k < |s.reqs| ==> ReqOK(c, s, s.reqs[k]) }

  // ----- the invariant of the lifecycle, the starter and the termination sequence

  predicate LifeOK(s: Sys) {
    && (s.life.state == Starting ==> s.life.readyAt.None?)
    && (s.life.state == Ready ==> s.life.readyAt.Some?)
    && (s.life.state == ShuttingDown <==> s.term.pc != Idle)
    && (s.stopped <==> PcRank(s.term.pc) >= 2)
    && (s.eval.closing <==> PcRank(s.term.pc) >= 5 || s.term.pc == WaitingEval)
    && (s.admin.closing <==> PcRank(s.term.pc) >= 9)
    && (s.term.pc != Idle ==> s.cause.Some?)
  }

  predicate StarterOK(s: Sys) {
    match s.starter
    case Announcing(at) => s.life.readyAt == Some(at) && s.registry.providerAt.None?
    case Returned(recorded, failed) =>
      && s.registry.providerAt == s.life.readyAt
      && (failed ==> recorded && s.cause.Some?)
      && (recorded ==> s.life.readyAt.None?)
    case _ => s.life.readyAt.None? && s.registry.providerAt.None?
  }

  predicate DrainOK(s: Sys) {
    PcRank(s.term.pc) >= 5 && DrainError !in s.term.errs ==> AllQuiet(s.reqs)
  }

  lemma LifeStep(c: Env, s: Sys, a: Action, t: Sys)
    requires LifeOK(s) && StarterOK(s) && Next(c, s, a, t)
    ensures LifeOK(t) && StarterOK(t)
  {
    match a
    case OfRequest(k, step) => RequestFrame(c, s, k, step);
    case OfStarter(step) => LifeStarter(s, step);
    case OfTerm(step) => LifeTerm(c, s, step);
    case OfListener(isEval, l) => ListenerFrame(s, isEval, l);
    case _ =>
  }

  lemma LifeStarter(s: Sys, step: StartStep)
    requires LifeOK(s) && StarterOK(s) && StartEnabled(s, step)
    ensures LifeOK(StepStart(s, step)) && StarterOK(StepStart(s, step))
  {}

  lemma LifeTerm(c: Env, s: Sys, step: TermStep)
    requires LifeOK(s) && StarterOK(s) && TermEnabled(c, s, step)
    ensures LifeOK(StepTerm(c, s, step)) && StarterOK(StepTerm(c, s, step))
  {}

  /** A listener's step moves its own listener, and may end the context. */
  lemma ListenerFrame(s: Sys, isEval: bool, l: ListenStep)
    requires ListenEnabled(ServerOf(s, isEval), l)
    ensures var t := StepServer(s, isEval, l);
            && t == s.(eval := t.eval, admin := t.admin, cause := t.cause)
            && t.eval.closing == s.eval.closing && t.admin.closing == s.admin.closing
            && (s.cause.Some? ==> t.cause == s.cause)
  {}

  /** A starter's step leaves the requests and the statistics alone. */
  lemma StarterFrame(s: Sys, step: StartStep)
    requires StartEnabled(s, step)
    ensures var t := StepStart(s, step);
            && t == s.(life := t.life, registry := t.registry, cause := t.cause, starter := t.starter)
            && t.registry == s.registry.(providerAt := t.registry.providerAt, lastError := t.registry.lastError)
            && (s.cause.Some? ==> t.cause == s.cause)
            && (t.registry.lastError.Some? <==> s.registry.lastError.Some? || step == InitFail)
            && (StartRecorded(t.starter) <==> StartRecorded(s.starter) || step == InitFail)
  {}

  /** A termination step leaves the requests, the registry and the starter alone. */
  lemma TermFrame(c: Env, s: Sys, step: TermStep)
    requires TermEnabled(c, s, step)
    ensures var t := StepTerm(c, s, step);
            t == s.(life := t.life, stopped := t.stopped, eval := t.eval, admin := t.admin, term := t.term)
  {}

  lemma ElsewhereFrame(c: Env, s: Sys, a: Action, t: Sys)
    requires Next(c, s, a, t) && !a.OfRequest? && !a.Connect?
    ensures t.reqs == s.reqs && t.log == s.log
    ensures t.registry.evaluations == s.registry.evaluations && t.registry.durations == s.registry.durations
    ensures !a.OfStarter? ==> t.registry == s.registry && t.starter == s.starter
  {
    match a
    case OfStarter(step) => StarterFrame(s, step);
    case OfTerm(step) => TermFrame(c, s, step);
    case OfListener(isEval, l) => ListenerFrame(s, isEval, l);
    case _ =>
  }

  /** A request touches only its own record, the registry's statistics and the log. */
  lemma RequestFrame(c: Env, s: Sys, k: nat, step: ReqStep)
    requires Metrics.Shaped(s.registry) && k < |s.reqs| && ReqEnabled(s, s.reqs[k], step)
    ensures var t := StepRequest(c, s, k, step);
            && t == s.(reqs := t.reqs, registry := t.registry, log := t.log)
            && t.reqs == s.reqs[k := StepReq(c, s, s.reqs[k], step)]
            && t.registry.providerAt == s.registry.providerAt
  {}

  lemma DrainStep(c: Env, s: Sys, a: Action, t: Sys)
    requires LifeOK(s) && DrainOK(s) && Next(c, s, a, t)
    ensures DrainOK(t)
  {
    match a
    case OfRequest(k, step) =>
      RequestFrame(c, s, k, step);
      QuietStays(c, s, s.reqs[k], step);
    case OfTerm(step) => DrainTerm(c, s, step);
    case OfStarter(step) => StarterFrame(s, step);
    case OfListener(isEval, l) => ListenerFrame(s, isEval, l);
    case _ =>
  }

  lemma DrainTerm(c: Env, s: Sys, step: TermStep)
    requires DrainOK(s) && TermEnabled(c, s, step)
    ensures DrainOK(StepTerm(c, s, step))
  {}

  lemma QuietStays(c: Env, s: Sys, r: Req, step: ReqStep)
    requires ReqEnabled(s, r, step)
    ensures Quiet(r) ==> Quiet(StepReq(c, s, r, step))
  {}

  lemma ReqsStep(c: Env, s: Sys, a: Action, t: Sys)
    requires LifeOK(s) && ReqsOK(c, s) && Next(c, s, a, t)
    ensures ReqsOK(c, t)
  {
    StateKept(c, s, a, t);
    forall k | 0 <= k < |t.reqs| ensures ReqOK(c, t, t.reqs[k]) {
      if k < |s.reqs| {
        if a.OfRequest? && a.k == k {
          RequestFrame(c, s, k, a.r);
          ReqStepOK(c, s, s.reqs[k], a.r);
          ReqOKLater(c, s, t, t.reqs[k]);
        } else {
          SameRequest(c, s, a, t, k);
          ReqOKLater(c, s, t, s.reqs[k]);
        }
      } else {
        NewRequest(c, s, a, t, k);
      }
    }
  }

  lemma StateKept(c: Env, s: Sys, a: Action, t: Sys)
    requires Next(c, s, a, t)
    ensures s.stopped ==> t.stopped
    ensures s.life.state != Starting ==> t.life.state != Starting
  {
    if a.OfRequest? { RequestFrame(c, s, a.k, a.r); }
  }

  lemma SameRequest(c: Env, s: Sys, a: Action, t: Sys, k: nat)
    requires Next(c, s, a, t) && k < |s.reqs| && !(a.OfRequest? && a.k == k)
    ensures |t.reqs| >= |s.reqs| && t.reqs[k] == s.reqs[k]
  {
    if a.OfRequest? { RequestFrame(c, s, a.k, a.r); }
  }

  lemma NewRequest(c: Env, s: Sys, a: Action, t: Sys, k: nat)
    requires Next(c, s, a, t) && |s.reqs| <= k < |t.reqs|
    ensures a.Connect? && t.reqs[k] == Arrived(a.input, a.decoded) && Decodes(a.input, c.limits, a.decoded)
  {
    if a.OfRequest? { RequestFrame(c, s, a.k, a.r); }
  }

  // ----- counting requests

  predicate WasCounted(r: Req) { r.phase.Counted? || r.phase.Finished? }

  predicate WasWritten(r: Req) { r.phase.Written? || WasCounted(r) }

  function CountedAs(reqs: seq<Req>, o: Metrics.Outcome): nat {
    if reqs == [] then 0
    else CountedAs(reqs[..|reqs| - 1], o) + if CountsAs(reqs[|reqs| - 1], o) then 1 else 0
  }

  /** Responses written. */
  function WrittenCount(reqs: seq<Req>): nat {
    if reqs == [] then 0 else WrittenCount(reqs[..|reqs| - 1]) + if WasWritten(reqs[|reqs| - 1]) then 1 else 0
  }

  /** Handlers between writing the response and counting it. */
  function BetweenCount(reqs: seq<Req>): nat {
    if reqs == [] then 0 else BetweenCount(reqs[..|reqs| - 1]) + if reqs[|reqs| - 1].phase.Written? then 1 else 0
  }

  predicate CountsAs(r: Req, o: Metrics.Outcome) { WasCounted(r) && r.phase.reply.outcome == o }

  lemma {:induction false} CountedUpdate(reqs: seq<Req>, k: nat, r: Req, o: Metrics.Outcome)
    requires k < |reqs|
    ensures CountedAs(reqs[k := r], o)
         == CountedAs(reqs, o) - (if CountsAs(reqs[k], o) then 1 else 0) + (if CountsAs(r, o) then 1 else 0)
  {
    var front := reqs[..|reqs| - 1];
    if k == |reqs| - 1 {
      assert reqs[k := r][..|reqs| - 1] == front;
    } else {
      CountedUpdate(front, k, r, o);
      assert reqs[k := r][..|reqs| - 1] == front[k := r];
    }
  }

  lemma {:induction false} WrittenUpdate(reqs: seq<Req>, k: nat, r: Req)
    requires k < |reqs|
    ensures WrittenCount(reqs[k := r])
         == WrittenCount(reqs) - (if WasWritten(reqs[k]) then 1 else 0) + (if WasWritten(r) then 1 else 0)
    ensures BetweenCount(reqs[k := r])
         == BetweenCount(reqs) - (if reqs[k].phase.Written? then 1 else 0) + (if r.phase.Written? then 1 else 0)
  {
    var front := reqs[..|reqs| - 1];
    if k == |reqs| - 1 {
      assert reqs[k := r][..|reqs| - 1] == front;
    } else {
      WrittenUpdate(front, k, r);
      assert reqs[k := r][..|reqs| - 1] == front[k := r];
    }
  }

  /** The registry is what replaying the log gives, the log holds one observation per counted
      request, and every response written is counted or about to be. */
  ghost predicate CountsOK(s: Sys) {
    && s.registry.evaluations == Metrics.Replay(s.log).evaluations
    && s.registry.durations == Metrics.Replay(s.log).durations
    && (forall o :: Metrics.Tally(s.log, o, None) == CountedAs(s.reqs, o))
    && WrittenCount(s.reqs) == |s.log| + BetweenCount(s.reqs)
  }

  lemma CountsStep(c: Env, s: Sys, a: Action, t: Sys)
    requires CountsOK(s) && Next(c, s, a, t)
    ensures CountsOK(t)
  {
    match a
    case OfRequest(k, step) =>
      RequestFrame(c, s, k, step);
      if step.Observe? {
        ObserveCounts(c, s, k, t);
      } else {
        OtherCounts(c, s, k, step, t);
      }
    case Connect(input, decoded) => ConnectCounts(s, t, Arrived(input, decoded));
    case _ => ElsewhereCounts(c, s, a, t);
  }

  lemma ConnectCounts(s: Sys, t: Sys, r: Req)
    requires CountsOK(s) && r.phase.Connected? && t == s.(reqs := s.reqs + [r])
    ensures CountsOK(t)
  {
    assert t.reqs[..|t.reqs| - 1] == s.reqs;
  }

  lemma ElsewhereCounts(c: Env, s: Sys, a: Action, t: Sys)
    requires CountsOK(s) && Next(c, s, a, t) && !a.OfRequest? && !a.Connect?
    ensures CountsOK(t)
  {
    ElsewhereFrame(c, s, a, t);
  }

  lemma ObserveCounts(c: Env, s: Sys, k: nat, t: Sys)
    requires CountsOK(s) && Next(c, s, OfRequest(k, Observe), t)
    ensures CountsOK(t)
  {
    var x := Observed(s, s.reqs[k]);
    ObservedFrame(c, s, k, t);
    WrittenUpdate(s.reqs, k, t.reqs[k]);
    forall o ensures Metrics.Tally(t.log, o, None) == CountedAs(t.reqs, o) {
      CountedUpdate(s.reqs, k, t.reqs[k], o);
      LogGrows(s.log, x, o);
    }
    ReplayGrows(s, t, x);
  }

  lemma ObservedFrame(c: Env, s: Sys, k: nat, t: Sys)
    requires Next(c, s, OfRequest(k, Observe), t)
    ensures var x := Observed(s, s.reqs[k]);
            && t.log == s.log + [x] && t.registry == Metrics.Observe(s.registry, x)
            && t.reqs == s.reqs[k := t.reqs[k]] && s.reqs[k].phase.Written? && t.reqs[k].phase.Counted?
            && forall o :: CountsAs(t.reqs[k], o) <==> x.outcome == o
  {}

  lemma OtherCounts(c: Env, s: Sys, k: nat, step: ReqStep, t: Sys)
    requires CountsOK(s) && Next(c, s, OfRequest(k, step), t) && !step.Observe?
    ensures CountsOK(t)
  {
    RequestFrame(c, s, k, step);
    WrittenUpdate(s.reqs, k, t.reqs[k]);
    UncountedStep(c, s, s.reqs[k], step);
    forall o ensures Metrics.Tally(t.log, o, None) == CountedAs(t.reqs, o) {
      CountedUpdate(s.reqs, k, t.reqs[k], o);
    }
    UncountedFrame(c, s, k, step);
  }

  lemma UncountedFrame(c: Env, s: Sys, k: nat, step: ReqStep)
    requires Metrics.Shaped(s.registry) && k < |s.reqs| && ReqEnabled(s, s.reqs[k], step) && !step.Observe?
    ensures var t := StepRequest(c, s, k, step);
            && t.log == s.log
            && t.registry.evaluations == s.registry.evaluations && t.registry.durations == s.registry.durations
  {}

  lemma UncountedStep(c: Env, s: Sys, r: Req, step: ReqStep)
    requires ReqEnabled(s, r, step) && !step.Observe?
    ensures var t := StepReq(c, s, r, step);
            && (forall o :: CountsAs(r, o) <==> CountsAs(t, o))
            && (WasWritten(t) <==> WasWritten(r) || step.Write?) && (step.Write? ==> !WasWritten(r))
            && (t.phase.Written? <==> r.phase.Written? || step.Write?)
  {}

  lemma LogGrows(log: seq<Metrics.Observation>, x: Metrics.Observation, o: Metrics.Outcome)
    ensures Metrics.Tally(log + [x], o, None) == Metrics.Tally(log, o, None) + if x.outcome == o then 1 else 0
  {
    assert (log + [x])[..|log + [x]| - 1] == log;
  }

  lemma {:induction false} ReplayGrows(s: Sys, t: Sys, x: Metrics.Observation)
    requires Metrics.Shaped(s.registry) && CountsOK(s)
    requires t.log == s.log + [x] && t.registry == Metrics.Observe(s.registry, x)
    ensures t.registry.evaluations == Metrics.Replay(t.log).evaluations
    ensures t.registry.durations == Metrics.Replay(t.log).durations
  {
    assert t.log[..|t.log| - 1] == s.log;
  }

  // ----- the last error

  predicate StartRecorded(st: Starter) { st.Failed? || st.Blaming? || (st.Returned? && st.recorded) }

  predicate FailureConcluded(r: Req) { r.phase.Finished? && Failing(r.phase.reply.outcome) }

  ghost predicate ErrorOK(s: Sys) {
    s.registry.lastError.Some? <==>
    StartRecorded(s.starter) || exists k :: 0 <= k < |s.reqs| && FailureConcluded(s.reqs[k])
  }

  lemma ErrorStep(c: Env, s: Sys, a: Action, t: Sys)
    requires ErrorOK(s) && Next(c, s, a, t)
    ensures ErrorOK(t)
  {
    match a
    case OfRequest(k, step) =>
      RequestFrame(c, s, k, step);
      ErrorRequest(c, s, k, step);
      if FailureConcluded(t.reqs[k]) && !FailureConcluded(s.reqs[k]) {
        assert ErrorOK(t);
      } else {
        ErrorFrame(s, t, k);
      }
    case Connect(input, decoded) => ConnectFrame(s, t, Arrived(input, decoded));
    case OfStarter(step) => StarterFrame(s, step);
    case _ => ElsewhereFrame(c, s, a, t);
  }

  lemma ErrorRequest(c: Env, s: Sys, k: nat, step: ReqStep)
    requires Metrics.Shaped(s.registry) && k < |s.reqs| && ReqEnabled(s, s.reqs[k], step)
    ensures var t := StepRequest(c, s, k, step);
            && (FailureConcluded(s.reqs[k]) ==> FailureConcluded(t.reqs[k]))
            && (t.registry.lastError.Some?
                <==> s.registry.lastError.Some? || (FailureConcluded(t.reqs[k]) && !FailureConcluded(s.reqs[k])))
  {}

  lemma ErrorFrame(s: Sys, t: Sys, k: nat)
    requires k < |s.reqs| && |t.reqs| == |s.reqs| && (FailureConcluded(s.reqs[k]) <==> FailureConcluded(t.reqs[k]))
    requires forall j :: 0 <= j < |s.reqs| && j != k ==> t.reqs[j] == s.reqs[j]
    ensures (exists j :: 0 <= j < |s.reqs| && FailureConcluded(s.reqs[j]))
       <==> exists j :: 0 <= j < |t.reqs| && FailureConcluded(t.reqs[j])
  {
    forall j | 0 <= j < |s.reqs| ensures FailureConcluded(s.reqs[j]) <==> FailureConcluded(t.reqs[j]) {}
    if j :| 0 <= j < |s.reqs| && FailureConcluded(s.reqs[j]) { assert FailureConcluded(t.reqs[j]); }
    if j :| 0 <= j < |t.reqs| && FailureConcluded(t.reqs[j]) { assert FailureConcluded(s.reqs[j]); }
  }

  lemma ConnectFrame(s: Sys, t: Sys, r: Req)
    requires t.reqs == s.reqs + [r] && r.phase.Connected?
    ensures (exists j :: 0 <= j < |s.reqs| && FailureConcluded(s.reqs[j]))
       <==> exists j :: 0 <= j < |t.reqs| && FailureConcluded(t.reqs[j])
  {
    if j :| 0 <= j < |s.reqs| && FailureConcluded(s.reqs[j]) { assert FailureConcluded(t.reqs[j]); }
    if j :| 0 <= j < |t.reqs| && FailureConcluded(t.reqs[j]) { assert FailureConcluded(s.reqs[j]); }
  }

  // ----- the whole invariant, over every run

  /** A listener that failed has ended the context. */
  predicate ListenersOK(s: Sys) {
    s.eval.listen == Closed(true) || s.admin.listen == Closed(true) ==> s.cause.Some?
  }

  lemma ListenersStep(c: Env, s: Sys, a: Action, t: Sys)
    requires ListenersOK(s) && Next(c, s, a, t)
    ensures ListenersOK(t)
  {
    match a
    case OfRequest(k, step) => RequestFrame(c, s, k, step);
    case OfStarter(step) => StarterFrame(s, step);
    case OfTerm(step) => ListenersTerm(c, s, step);
    case _ =>
  }

  lemma ListenersTerm(c: Env, s: Sys, step: TermStep)
    requires TermEnabled(c, s, step)
    ensures var t := StepTerm(c, s, step);
            t.eval.listen == s.eval.listen && t.admin.listen == s.admin.listen && t.cause == s.cause
  {}

  ghost predicate Inv(c: Env, s: Sys) {
    LifeOK(s) && ListenersOK(s) && StarterOK(s) && DrainOK(s) && ReqsOK(c, s) && CountsOK(s) && ErrorOK(s)
  }

  lemma InvStep(c: Env, s: Sys, a: Action, t: Sys)
    requires Inv(c, s) && Next(c, s, a, t)
    ensures Inv(c, t)
  {
    LifeStep(c, s, a, t);
    ListenersStep(c, s, a, t);
    DrainStep(c, s, a, t);
    ReqsStep(c, s, a, t);
    CountsStep(c, s, a, t);
    ErrorStep(c, s, a, t);
  }

  /** Every reachable state meets the invariant. */
  lemma {:induction false} Reachable(c: Env, run: seq<Action>)
    requires Exec(c, run).Some?
    ensures Inv(c, Exec(c, run).value)
  {
    if run != [] {
      LastStep(c, run);
      var front := run[..|run| - 1];
      Reachable(c, front);
      InvStep(c, Exec(c, front).value, run[|run| - 1], Exec(c, run).value);
    }
  }

  // ----- what later states remember

  /** How one request's record may have moved. */
  predicate Follows(r: Req, t: Req) {
    && t.input == r.input && t.decoded == r.decoded
    && PhaseRank(r.phase) <= PhaseRank(t.phase)
    && EvaluatorRank(r.evaluator) <= EvaluatorRank(t.evaluator)
    && (r.phase.Dropped? ==> t.phase.Dropped?)
    && (r.phase.Finished? ==> t.phase.Finished?)
    && (HasReply(r.phase) ==> HasReply(t.phase) && t.phase.reply == r.phase.reply && t.picked == r.picked)
    && (HasReply(r.phase) && r.evaluator.Unborn? ==> t.evaluator.Unborn?)
    && (PhaseRank(r.phase) >= 2 && !r.phase.Dropped? ==> t.sawStopped == r.sawStopped && !t.phase.Dropped?)
    && (PhaseRank(r.phase) >= 4 ==> t.sawState == r.sawState)
    && (PhaseRank(r.phase) >= 1 ==> t.entered == r.entered)
    && (r.phase.Selecting? ==> t.phase == r.phase || HasReply(t.phase))
  }

  predicate LifeGrows(s: Sys, t: Sys) {
    && s.clock <= t.clock
    && (s.cause.Some? ==> t.cause == s.cause)
    && StateRank(s.life.state) <= StateRank(t.life.state)
    && (s.life.readyAt.Some? ==> t.life.readyAt == s.life.readyAt)
    && (s.life.state == ShuttingDown ==> t.life.readyAt == s.life.readyAt)
    && (s.registry.providerAt.Some? ==> t.registry.providerAt == s.registry.providerAt)
  }

  predicate TermGrows(s: Sys, t: Sys) {
    && (s.stopped ==> t.stopped)
    && PcRank(s.term.pc) <= PcRank(t.term.pc)
    && s.term.errs <= t.term.errs
    && (PcRank(s.term.pc) >= 5 ==> (DrainError in t.term.errs ==> DrainError in s.term.errs))
  }

  ghost predicate ReqsGrow(s: Sys, t: Sys) {
    && s.log <= t.log
    && |s.reqs| <= |t.reqs|
    && (forall k :: 0 <= k < |s.reqs| ==> Follows(s.reqs[k], t.reqs[k]))
  }

  ghost predicate Grows(s: Sys, t: Sys) { LifeGrows(s, t) && TermGrows(s, t) && ReqsGrow(s, t) }

  lemma ReqFollows(c: Env, s: Sys, r: Req, step: ReqStep)
    requires ReqOK(c, s, r) && ReqEnabled(s, r, step)
    ensures Follows(r, StepReq(c, s, r, step))
  {}

  lemma FollowsTransitive(r: Req, t: Req, u: Req)
    requires Follows(r, t) && Follows(t, u)
    ensures Follows(r, u)
  {}

  lemma GrowsTransitive(s: Sys, t: Sys, u: Sys)
    requires Grows(s, t) && Grows(t, u)
    ensures Grows(s, u)
  {
    forall k | 0 <= k < |s.reqs| ensures Follows(s.reqs[k], u.reqs[k]) {
      FollowsTransitive(s.reqs[k], t.reqs[k], u.reqs[k]);
    }
  }

  lemma StepGrows(c: Env, s: Sys, a: Action, t: Sys)
    requires Inv(c, s) && Next(c, s, a, t)
    ensures Grows(s, t)
  {
    LifeGrowsStep(c, s, a, t);
    TermGrowsStep(c, s, a, t);
    forall k | 0 <= k < |s.reqs| ensures |t.reqs| >= |s.reqs| && Follows(s.reqs[k], t.reqs[k]) {
      if a.OfRequest? && a.k == k {
        RequestFrame(c, s, k, a.r);
        ReqFollows(c, s, s.reqs[k], a.r);
      } else {
        SameRequest(c, s, a, t, k);
      }
    }
    LogGrowsStep(c, s, a, t);
  }

  lemma LifeGrowsStep(c: Env, s: Sys, a: Action, t: Sys)
    requires LifeOK(s) && StarterOK(s) && Next(c, s, a, t)
    ensures LifeGrows(s, t)
  {
    match a
    case OfRequest(k, step) => RequestFrame(c, s, k, step);
    case OfTerm(step) => TermFrame(c, s, step);
    case OfListener(isEval, l) => ListenerFrame(s, isEval, l);
    case OfStarter(step) => StarterFrame(s, step);
    case _ =>
  }

  lemma TermGrowsStep(c: Env, s: Sys, a: Action, t: Sys)
    requires Next(c, s, a, t)
    ensures TermGrows(s, t)
  {
    match a
    case OfRequest(k, step) => RequestFrame(c, s, k, step);
    case OfTerm(step) => TermGrowsTerm(c, s, step);
    case OfListener(isEval, l) => ListenerFrame(s, isEval, l);
    case OfStarter(step) => StarterFrame(s, step);
    case _ =>
  }

  lemma TermGrowsTerm(c: Env, s: Sys, step: TermStep)
    requires TermEnabled(c, s, step)
    ensures TermGrows(s, StepTerm(c, s, step))
  {}

  lemma LogGrowsStep(c: Env, s: Sys, a: Action, t: Sys)
    requires Next(c, s, a, t)
    ensures s.log <= t.log && |s.reqs| <= |t.reqs|
  {
    if a.OfRequest? { RequestFrame(c, s, a.k, a.r); }
  }

  /** Along every run, later states follow earlier ones. */
  lemma {:induction false} RunGrows(c: Env, run: seq<Action>, more: seq<Action>)
    requires Exec(c, run + more).Some?
    ensures Exec(c, run).Some?
    ensures Grows(Exec(c, run).value, Exec(c, run + more).value)
  {
    if more == [] {
      assert run + more == run;
      Reachable(c, run);
      var reqs := Exec(c, run).value.reqs;
      forall k | 0 <= k < |reqs| ensures Follows(reqs[k], reqs[k]) {}
    } else {
      var whole, front := run + more, run + more[..|more| - 1];
      assert whole[..|whole| - 1] == front && whole[|whole| - 1] == more[|more| - 1];
      LastStep(c, whole);
      RunGrows(c, run, more[..|more| - 1]);
      Reachable(c, front);
      StepGrows(c, Exec(c, front).value, more[|more| - 1], Exec(c, whole).value);
      GrowsTransitive(Exec(c, run).value, Exec(c, front).value, Exec(c, whole).value);
    }
  }
}
